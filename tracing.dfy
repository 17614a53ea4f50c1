/** The geometry of traceRay as pure functions: the per-sphere quadratic, the
    "closest point" selection over the sphere list, and the Lambertian shading sum
    over the lights. The imperative traceRay of the RayTracer class is proved equal
    to Trace below. */
module Tracing {
  import opened Vectors
  import Colors

  datatype Option<T> = None | Some(value: T)

  datatype Ray = Ray(start: Vector, dir: Vector)

  /** k_ambient, k_specular and specular_pow are stored but never read. */
  datatype Sphere = Sphere(color: Colors.Color, center: Vector, radius: real,
                           kAmbient: real, kSpecular: real, specularPow: real)

  datatype Light = Light(color: Colors.Color, position: Vector)

  datatype ClosestPoint = ClosestPoint(point: Vector, shape: Sphere)

  /** The pair of loop variables closest_point and found_point. */
  datatype Selection = Selection(closest: ClosestPoint, found: bool)

  /** The placeholder traceRay starts from: origin and an all-zero sphere. */
  const DummySphere := Sphere(Colors.Color(0.0, 0.0, 0.0), Vector(0.0, 0.0, 0.0), 0.0, 0.0, 0.0, 0.0)
  const InitialSelection := Selection(ClosestPoint(Vector(0.0, 0.0, 0.0), DummySphere), false)

  // ---- The quadratic of one sphere ----

  /** a: the squared length of the direction, written with Math.pow. */
  function CoefA(ray: Ray): (a: real)
    ensures 0.0 <= a
  {
    Square(ray.dir.x) + Square(ray.dir.y) + Square(ray.dir.z)
  }

  function CoefB(ray: Ray, sphere: Sphere): real
  {
    2.0 * (((ray.start.x - sphere.center.x) * ray.dir.x) + ((ray.start.y - sphere.center.y) * ray.dir.y)
           + (ray.start.z - sphere.center.z) * ray.dir.z)
  }

  /** c: the squared distance from the start to the centre; the radius is not
      subtracted. */
  function CoefC(ray: Ray, sphere: Sphere): (c: real)
    ensures 0.0 <= c
  {
    Square(ray.start.x - sphere.center.x) + Square(ray.start.y - sphere.center.y)
    + Square(ray.start.z - sphere.center.z)
  }

  /** b² − 4ac, written with Math.pow. */
  function Discriminant(a: real, b: real, c: real): real
  {
    Square(b) - (4.0 * a * c)
  }

  /** The three coefficients in vector form: a = |dir|², b = 2 (start − centre)·dir,
      c = |start − centre|², and c ignores the radius. */
  lemma Coefficients(ray: Ray, sphere: Sphere, radius: real)
    ensures CoefA(ray) == Dot(ray.dir, ray.dir) && 0.0 <= CoefA(ray)
    ensures CoefB(ray, sphere) == 2.0 * Dot(Minus(ray.start, sphere.center), ray.dir)
    ensures CoefC(ray, sphere) == Dot(Minus(ray.start, sphere.center), Minus(ray.start, sphere.center))
    ensures 0.0 <= CoefC(ray, sphere)
    ensures CoefC(ray, sphere) == CoefC(ray, sphere.(radius := radius))
  {
  }

  /** Because c omits the radius, b² − 4ac is never positive (Cauchy–Schwarz): the
      roots are computed only when the discriminant is exactly zero. */
  lemma DiscriminantNonPositive(ray: Ray, sphere: Sphere)
    ensures Discriminant(CoefA(ray), CoefB(ray, sphere), CoefC(ray, sphere)) <= 0.0
  {
    var d := Minus(ray.start, sphere.center);
    Coefficients(ray, sphere, sphere.radius);
    CauchySchwarz(d, ray.dir);
    var p := Dot(d, ray.dir);
    assert Square(CoefB(ray, sphere)) == 4.0 * (p * p);
    assert 4.0 * CoefA(ray) * CoefC(ray, sphere) == 4.0 * (Dot(d, d) * Dot(ray.dir, ray.dir));
  }

  /** JavaScript division; None stands for the non-finite result of dividing by zero. */
  function Quotient(n: real, d: real): (q: Option<real>)
    ensures q.None? <==> d == 0.0
    ensures q.Some? ==> q.value * d == n
  {
    if d == 0.0 then None else Some(n / d)
  }

  /** The point start + t·dir, or None when t is non-finite. */
  function PointAt(ray: Ray, t: Option<real>): (p: Option<Vector>)
    ensures p.Some? <==> t.Some?
    ensures p.Some? ==> Minus(p.value, ray.start) == Times(t.value, ray.dir)
  {
    match t
    case None => None
    case Some(t) =>
      Some(Vector(ray.start.x + (t * ray.dir.x), ray.start.y + (t * ray.dir.y), ray.start.z + (t * ray.dir.z)))
  }

  /** The comparison distance(p, start) < distance(q, start); any comparison with a
      non-finite distance is false, as in JavaScript. */
  predicate Closer(sqrt: real -> real, p: Option<Vector>, q: Vector, start: Vector)
    requires IsSqrt(sqrt)
  {
    p.Some? && Distance(sqrt, p.value, start) < Distance(sqrt, q, start)
  }

  /** Nothing is closer to a point than the point itself. */
  lemma NeverCloserThanStart(sqrt: real -> real, p: Option<Vector>, start: Vector)
    requires IsSqrt(sqrt)
    ensures !Closer(sqrt, p, start, start)
  {
    DistanceSelf(sqrt, start);
  }

  // ---- The selection loop ----

  /** One iteration of the loop over the spheres: closest_point is reset to the ray
      start, and the two conditions assign found_point = (false || closer). */
  function SelectStep(sqrt: real -> real, ray: Ray, sel: Selection, sphere: Sphere): Selection
    requires IsSqrt(sqrt)
  {
    var closest := ClosestPoint(ray.start, sphere);
    var a := CoefA(ray);
    var b := CoefB(ray, sphere);
    var c := CoefC(ray, sphere);
    var r := Discriminant(a, b, c);
    if r >= 0.0 then
      var p1 := PointAt(ray, Quotient((-1.0 * b) + sqrt(r), 2.0 * a));
      var p2 := PointAt(ray, Quotient((-1.0 * b) - sqrt(r), 2.0 * a));
      var found1 := false || Closer(sqrt, p1, closest.point, ray.start);
      var closest1 := if found1 then ClosestPoint(p1.value, sphere) else closest;
      var found2 := false || Closer(sqrt, p2, closest1.point, ray.start);
      var closest2 := if found2 then ClosestPoint(p2.value, sphere) else closest1;
      Selection(closest2, found2)
    else
      Selection(closest, sel.found)
  }

  /** The selection after the loop has visited all of spheres, in order. */
  function Select(sqrt: real -> real, ray: Ray, spheres: seq<Sphere>, init: Selection): Selection
    requires IsSqrt(sqrt)
  {
    if spheres == [] then init
    else SelectStep(sqrt, ray, Select(sqrt, ray, spheres[..|spheres| - 1], init), spheres[|spheres| - 1])
  }

  /** Neither update fires: each step leaves the ray start and the visited sphere
      as closest point, and found_point keeps the value false. */
  lemma SelectStepResult(sqrt: real -> real, ray: Ray, sphere: Sphere)
    requires IsSqrt(sqrt)
    ensures SelectStep(sqrt, ray, Selection(InitialSelection.closest, false), sphere)
         == Selection(ClosestPoint(ray.start, sphere), false)
    ensures forall sel: Selection :: !sel.found ==>
      SelectStep(sqrt, ray, sel, sphere) == Selection(ClosestPoint(ray.start, sphere), false)
  {
    var a := CoefA(ray);
    var b := CoefB(ray, sphere);
    var r := Discriminant(a, b, CoefC(ray, sphere));
    NeverCloserThanStart(sqrt, PointAt(ray, Quotient((-1.0 * b) + sqrt(r), 2.0 * a)), ray.start);
    NeverCloserThanStart(sqrt, PointAt(ray, Quotient((-1.0 * b) - sqrt(r), 2.0 * a)), ray.start);
  }

  /** After the loop the closest point is the ray start on the last sphere (the
      placeholder when there are no spheres), and found_point is false. */
  lemma {:induction false} SelectionResult(sqrt: real -> real, ray: Ray, spheres: seq<Sphere>)
    requires IsSqrt(sqrt)
    ensures Select(sqrt, ray, spheres, InitialSelection)
         == if spheres == [] then InitialSelection
            else Selection(ClosestPoint(ray.start, spheres[|spheres| - 1]), false)
  {
    if spheres != [] {
      var prefix := spheres[..|spheres| - 1];
      SelectionResult(sqrt, ray, prefix);
      SelectStepResult(sqrt, ray, spheres[|spheres| - 1]);
    }
  }

  /** The closest point traceRay ends up shading. */
  function Closest(start: Vector, spheres: seq<Sphere>): ClosestPoint
  {
    if spheres == [] then InitialSelection.closest
    else ClosestPoint(start, spheres[|spheres| - 1])
  }

  // ---- Shading ----

  function Max(a: real, b: real): real
  {
    if a >= b then a else b
  }

  /** max(0, n·l) for the normalized direction l from the point to the light. */
  function Lightness(sqrt: real -> real, n: Vector, point: Vector, light: Light): (lt: real)
    requires IsSqrt(sqrt)
    requires Mag(sqrt, Minus(light.position, point)) != 0.0
    ensures 0.0 <= lt
    ensures Dot(n, n) == 1.0 ==> lt <= 1.0
  {
    var v := Vector(light.position.x - point.x, light.position.y - point.y, light.position.z - point.z);
    var l := Norm(sqrt, v);
    NormUnit(sqrt, v);
    UnitDotBounded(n, l);
    Max(0.0, Dot(n, l))
  }

  /** A light contributes only when it lies on the outer side of the normal. */
  lemma LightnessPositive(sqrt: real -> real, n: Vector, point: Vector, light: Light)
    requires IsSqrt(sqrt)
    requires Mag(sqrt, Minus(light.position, point)) != 0.0
    ensures 0.0 < Lightness(sqrt, n, point, light) <==> 0.0 < Dot(n, Minus(light.position, point))
  {
    var v := Minus(light.position, point);
    var mag := Mag(sqrt, v);
    var l := Norm(sqrt, v);
    NormUnit(sqrt, v);
    DotLinear(mag, l, n, n);
    assert Dot(n, v) == mag * Dot(n, l) by {
      assert Dot(Times(mag, l), n) == mag * Dot(l, n);
    }
    SignOfProduct(mag, Dot(n, l));
  }

  /** For a positive factor, a product is positive exactly when the other factor is. */
  lemma SignOfProduct(m: real, x: real)
    requires 0.0 < m
    ensures 0.0 < m * x <==> 0.0 < x
  {
    if 0.0 < x {
      assert 0.0 < m * x;
    } else {
      assert m * x <= 0.0 by {
        assert m * x == -(m * (-x));
      }
    }
  }

  /** What one light adds to the pixel: shape.color · light.color · lightness. */
  function Contribution(sqrt: real -> real, closest: ClosestPoint, n: Vector, light: Light): Colors.Color
    requires IsSqrt(sqrt)
    requires Mag(sqrt, Minus(light.position, closest.point)) != 0.0
  {
    Colors.Times(closest.shape.color, Colors.Scale(Lightness(sqrt, n, closest.point, light), light.color))
  }

  /** Channel by channel, a contribution is shape.color · (light.color · lightness),
      the order in which the shading loop multiplies. */
  lemma ContributionChannels(sqrt: real -> real, closest: ClosestPoint, n: Vector, light: Light)
    requires IsSqrt(sqrt)
    requires Mag(sqrt, Minus(light.position, closest.point)) != 0.0
    ensures var lt := Lightness(sqrt, n, closest.point, light);
      var s := closest.shape.color;
      Contribution(sqrt, closest, n, light)
      == Colors.Color(s.r * (light.color.r * lt), s.g * (light.color.g * lt), s.b * (light.color.b * lt))
  {
    var lt := Lightness(sqrt, n, closest.point, light);
    assert lt * light.color.r == light.color.r * lt;
    assert lt * light.color.g == light.color.g * lt;
    assert lt * light.color.b == light.color.b * lt;
  }

  /** No light sits exactly on the shaded point, so every l can be normalized. */
  predicate LightsVisible(sqrt: real -> real, point: Vector, lights: seq<Light>)
    requires IsSqrt(sqrt)
  {
    forall i :: 0 <= i < |lights| ==> Mag(sqrt, Minus(lights[i].position, point)) != 0.0
  }

  /** The shading loop: the in-order sum of the contributions, starting from black. */
  function Shade(sqrt: real -> real, closest: ClosestPoint, n: Vector, lights: seq<Light>): Colors.Color
    requires IsSqrt(sqrt)
    requires LightsVisible(sqrt, closest.point, lights)
  {
    if lights == [] then Colors.Black
    else
      Colors.Plus(Shade(sqrt, closest, n, lights[..|lights| - 1]),
           Contribution(sqrt, closest, n, lights[|lights| - 1]))
  }

  /** Every light of a concatenation is visible exactly when every light of both
      parts is. */
  lemma LightsVisibleAppend(sqrt: real -> real, point: Vector, lights1: seq<Light>, lights2: seq<Light>)
    requires IsSqrt(sqrt)
    ensures LightsVisible(sqrt, point, lights1 + lights2)
        <==> LightsVisible(sqrt, point, lights1) && LightsVisible(sqrt, point, lights2)
  {
    var all := lights1 + lights2;
    assert forall i :: 0 <= i < |lights1| ==> lights1[i] == all[i];
    assert forall i :: 0 <= i < |lights2| ==> lights2[i] == all[|lights1| + i];
    assert forall i :: |lights1| <= i < |all| ==> all[i] == lights2[i - |lights1|];
  }

  /** One iteration of the shading loop: adding the channels of the next light's
      contribution to the running sum gives the shading of one more light. */
  lemma ShadeStep(sqrt: real -> real, closest: ClosestPoint, n: Vector, lights: seq<Light>, k: nat,
                  light: Light, lightness: real, r0: real, g0: real, b0: real, r: real, g: real, b: real)
    requires IsSqrt(sqrt)
    requires k < |lights| && light == lights[k] && LightsVisible(sqrt, closest.point, lights[..k + 1])
    requires Colors.Color(r0, g0, b0) == Shade(sqrt, closest, n, lights[..k])
    requires lightness == Lightness(sqrt, n, closest.point, light)
    requires r == r0 + closest.shape.color.r * (light.color.r * lightness)
    requires g == g0 + closest.shape.color.g * (light.color.g * lightness)
    requires b == b0 + closest.shape.color.b * (light.color.b * lightness)
    ensures Colors.Color(r, g, b) == Shade(sqrt, closest, n, lights[..k + 1])
  {
    var prefix := lights[..k + 1];
    assert prefix[..k] == lights[..k];
    assert prefix[k] == lights[k];
    assert Shade(sqrt, closest, n, prefix)
        == Colors.Plus(Colors.Color(r0, g0, b0), Contribution(sqrt, closest, n, lights[k]));
    ContributionChannels(sqrt, closest, n, lights[k]);
  }

  /** Shading a concatenation of light lists adds the two shadings. */
  lemma {:induction false} ShadeAppend(sqrt: real -> real, closest: ClosestPoint, n: Vector,
                                       lights1: seq<Light>, lights2: seq<Light>)
    requires IsSqrt(sqrt)
    requires LightsVisible(sqrt, closest.point, lights1) && LightsVisible(sqrt, closest.point, lights2)
    ensures LightsVisible(sqrt, closest.point, lights1 + lights2)
    ensures Shade(sqrt, closest, n, lights1 + lights2)
         == Colors.Plus(Shade(sqrt, closest, n, lights1), Shade(sqrt, closest, n, lights2))
  {
    LightsVisibleAppend(sqrt, closest.point, lights1, lights2);
    if lights2 == [] {
      assert lights1 + lights2 == lights1;
      Colors.PlusLaws(Shade(sqrt, closest, n, lights1), Colors.Black, Colors.Black);
    } else {
      var init := lights2[..|lights2| - 1];
      var last := lights2[|lights2| - 1];
      assert lights2 == init + [last];
      LightsVisibleAppend(sqrt, closest.point, init, [last]);
      var all := lights1 + lights2;
      assert all[..|all| - 1] == lights1 + init;
      assert all[|all| - 1] == last;
      ShadeAppend(sqrt, closest, n, lights1, init);
      Colors.PlusLaws(Shade(sqrt, closest, n, lights1), Shade(sqrt, closest, n, init),
                      Contribution(sqrt, closest, n, last));
    }
  }

  /** Non-negative surface and light colours shade to a non-negative colour. */
  lemma {:induction false} ShadeNonNegative(sqrt: real -> real, closest: ClosestPoint, n: Vector,
                                            lights: seq<Light>)
    requires IsSqrt(sqrt)
    requires LightsVisible(sqrt, closest.point, lights)
    requires Colors.NonNegative(closest.shape.color)
    requires forall i :: 0 <= i < |lights| ==> Colors.NonNegative(lights[i].color)
    ensures Colors.NonNegative(Shade(sqrt, closest, n, lights))
  {
    if lights != [] {
      var last := lights[|lights| - 1];
      ShadeNonNegative(sqrt, closest, n, lights[..|lights| - 1]);
      var lt := Lightness(sqrt, n, closest.point, last);
      Colors.NonNegativeClosed(lt, last.color, last.color);
      Colors.NonNegativeClosed(0.0, closest.shape.color, Colors.Scale(lt, last.color));
      Colors.NonNegativeClosed(0.0, Shade(sqrt, closest, n, lights[..|lights| - 1]),
                        Contribution(sqrt, closest, n, last));
    }
  }

  /** Two lights at the same position shade like one light of the summed colour. */
  lemma ShadeMergeLights(sqrt: real -> real, closest: ClosestPoint, n: Vector, lights: seq<Light>,
                         c1: Colors.Color, c2: Colors.Color, position: Vector)
    requires IsSqrt(sqrt)
    requires LightsVisible(sqrt, closest.point, lights)
    requires Mag(sqrt, Minus(position, closest.point)) != 0.0
    ensures LightsVisible(sqrt, closest.point, lights + [Light(c1, position), Light(c2, position)])
    ensures LightsVisible(sqrt, closest.point, lights + [Light(Colors.Plus(c1, c2), position)])
    ensures Shade(sqrt, closest, n, lights + [Light(c1, position), Light(c2, position)])
         == Shade(sqrt, closest, n, lights + [Light(Colors.Plus(c1, c2), position)])
  {
    var two := lights + [Light(c1, position), Light(c2, position)];
    var one := lights + [Light(Colors.Plus(c1, c2), position)];
    assert two[..|two| - 1] == lights + [Light(c1, position)];
    assert (lights + [Light(c1, position)])[..|lights|] == lights;
    assert one[..|one| - 1] == lights;
    var lt := Lightness(sqrt, n, closest.point, Light(c1, position));
    assert lt == Lightness(sqrt, n, closest.point, Light(c2, position));
    assert lt == Lightness(sqrt, n, closest.point, Light(Colors.Plus(c1, c2), position));
    var s := closest.shape.color;
    Colors.Distributive(lt, s, c1, c2);
    Colors.Distributive(lt, s, Colors.Scale(lt, c1), Colors.Scale(lt, c2));
    Colors.PlusLaws(Shade(sqrt, closest, n, lights), Colors.Times(s, Colors.Scale(lt, c1)), Colors.Times(s, Colors.Scale(lt, c2)));
  }

  // ---- traceRay ----

  /** What traceRay needs to stay finite: when there are lights, the closest point
      is not the centre of its sphere and no light sits on it. Without spheres the
      placeholder point is the placeholder's centre, so lights are then excluded. */
  predicate ShadingDefined(sqrt: real -> real, start: Vector, spheres: seq<Sphere>, lights: seq<Light>)
    requires IsSqrt(sqrt)
  {
    var closest := Closest(start, spheres);
    lights != [] ==>
      Mag(sqrt, Minus(closest.point, closest.shape.center)) != 0.0
      && LightsVisible(sqrt, closest.point, lights)
  }

  /** The surface normal n = norm(point − centre). When it cannot be normalized there
      are no lights to read it, and the unnormalized vector is kept. */
  function Normal(sqrt: real -> real, closest: ClosestPoint): (n: Vector)
    requires IsSqrt(sqrt)
    ensures Mag(sqrt, Minus(closest.point, closest.shape.center)) != 0.0 ==> Dot(n, n) == 1.0
  {
    var n := Vector(closest.point.x - closest.shape.center.x, closest.point.y - closest.shape.center.y,
                    closest.point.z - closest.shape.center.z);
    if Mag(sqrt, n) != 0.0 then NormUnit(sqrt, n); Norm(sqrt, n) else n
  }

  /** traceRay: select the closest point, assign found_point = false, and since
      that leaves the condition false, shade the closest point. */
  function Trace(sqrt: real -> real, spheres: seq<Sphere>, lights: seq<Light>, background: Colors.Color,
                 ray: Ray): Colors.Color
    requires IsSqrt(sqrt)
    requires ShadingDefined(sqrt, ray.start, spheres, lights)
  {
    var sel := Select(sqrt, ray, spheres, InitialSelection);
    SelectionResult(sqrt, ray, spheres);
    var foundPoint := false;
    if foundPoint then background
    else
      var closest := sel.closest;
      assert LightsVisible(sqrt, closest.point, lights);
      Shade(sqrt, closest, Normal(sqrt, closest), lights)
  }

  /** traceRay never returns the background: it shades the ray start on the last
      sphere, and the result depends on neither the background nor the direction. */
  lemma TraceResult(sqrt: real -> real, spheres: seq<Sphere>, lights: seq<Light>,
                    background: Colors.Color, background2: Colors.Color, ray: Ray, dir2: Vector)
    requires IsSqrt(sqrt)
    requires ShadingDefined(sqrt, ray.start, spheres, lights)
    ensures LightsVisible(sqrt, Closest(ray.start, spheres).point, lights)
    ensures Trace(sqrt, spheres, lights, background, ray)
         == Shade(sqrt, Closest(ray.start, spheres), Normal(sqrt, Closest(ray.start, spheres)), lights)
    ensures Trace(sqrt, spheres, lights, background, ray)
         == Trace(sqrt, spheres, lights, background2, Ray(ray.start, dir2))
  {
    SelectionResult(sqrt, ray, spheres);
    SelectionResult(sqrt, Ray(ray.start, dir2), spheres);
  }

  /** With no lights the result is black, whatever the background. */
  lemma TraceNoLights(sqrt: real -> real, spheres: seq<Sphere>, background: Colors.Color, ray: Ray)
    requires IsSqrt(sqrt)
    ensures ShadingDefined(sqrt, ray.start, spheres, [])
    ensures Trace(sqrt, spheres, [], background, ray) == Colors.Black
  {
  }

  /** Non-negative sphere and light colours give a non-negative result. */
  lemma TraceNonNegative(sqrt: real -> real, spheres: seq<Sphere>, lights: seq<Light>,
                         background: Colors.Color, ray: Ray)
    requires IsSqrt(sqrt)
    requires ShadingDefined(sqrt, ray.start, spheres, lights)
    requires forall i :: 0 <= i < |spheres| ==> Colors.NonNegative(spheres[i].color)
    requires forall i :: 0 <= i < |lights| ==> Colors.NonNegative(lights[i].color)
    ensures Colors.NonNegative(Trace(sqrt, spheres, lights, background, ray))
  {
    TraceResult(sqrt, spheres, lights, background, background, ray, ray.dir);
    if lights != [] {
      ShadeNonNegative(sqrt, Closest(ray.start, spheres), Normal(sqrt, Closest(ray.start, spheres)), lights);
    }
  }
}
