/** The RayTracer application state: the scene (spheres, lights, ambient light,
    background, field of view) and the camera (eye position and the forward, right
    and up vectors), the API functions that populate them, the eye ray of a pixel,
    and traceRay with its two loops. */
module Tracer {
  import opened Vectors
  import Colors
  import opened Tracing

  /** The camera frame set_eye derives from eye, look-at point and up hint. */
  lemma CameraBasis(eye: Vector, lookAt: Vector, upHint: Vector)
    ensures var forward := Minus(lookAt, eye);
      var right := Cross(forward, upHint);
      Orthogonal(right, Cross(forward, right), forward)
  {
    var forward := Minus(lookAt, eye);
    var right := Cross(forward, upHint);
    CrossOrthogonal(forward, upHint);
    CrossOrthogonal(forward, right);
    DotLinear(1.0, right, Cross(forward, right), forward);
  }

  class RayTracer {
    /** Canvas size, used by eyeRay. */
    const width: real
    const height: real
    /** Number of pixels traced in each direction. */
    const screenWidth: nat
    const screenHeight: nat
    /** Math.sqrt and Math.PI / 180. */
    const sqrt: real -> real
    const deg2rad: real

    var spheres: seq<Sphere>
    var lights: seq<Light>
    var ambientLight: Colors.Color
    var fov: real
    var background: Colors.Color
    var eyePosition: Vector
    var forward: Vector
    var right: Vector
    var up: Vector

    /** The square root behaves as one, the canvas has a size, and the camera frame
        is orthogonal. */
    ghost predicate Valid()
      reads this
    {
      IsSqrt(sqrt) && 0.0 < deg2rad && 0.0 < width && 0.0 < height
      && Orthogonal(right, up, forward)
    }

    /** Starts from the state reset_scene establishes, with a zero camera frame. */
    constructor (width: real, height: real, screenWidth: nat, screenHeight: nat,
                 sqrt: real -> real, deg2rad: real)
      requires IsSqrt(sqrt) && 0.0 < deg2rad && 0.0 < width && 0.0 < height
      ensures Valid()
      ensures this.width == width && this.height == height
      ensures this.screenWidth == screenWidth && this.screenHeight == screenHeight
      ensures this.sqrt == sqrt && this.deg2rad == deg2rad
      ensures spheres == [] && lights == [] && fov == 0.0
      ensures ambientLight == Colors.Black && background == Colors.Black
      ensures eyePosition == Zero && forward == Zero && right == Zero && up == Zero
    {
      this.width, this.height := width, height;
      this.screenWidth, this.screenHeight := screenWidth, screenHeight;
      this.sqrt, this.deg2rad := sqrt, deg2rad;
      spheres, lights := [], [];
      fov := 0.0;
      ambientLight, background := Colors.Black, Colors.Black;
      eyePosition, forward, right, up := Zero, Zero, Zero, Zero;
    }

    /** reset_scene: empties the scene and zeroes its values; the camera frame is
        left as it was. */
    method ResetScene()
      requires Valid()
      modifies this
      ensures Valid()
      ensures spheres == [] && lights == [] && fov == 0.0
      ensures ambientLight == Colors.Color(0.0, 0.0, 0.0) && background == Colors.Color(0.0, 0.0, 0.0)
      ensures eyePosition == Vector(0.0, 0.0, 0.0)
      ensures forward == old(forward) && right == old(right) && up == old(up)
    {
      spheres := [];
      lights := [];
      fov := 0.0;
      ambientLight := Colors.Color(0.0, 0.0, 0.0);
      background := Colors.Color(0.0, 0.0, 0.0);
      eyePosition := Vector(0.0, 0.0, 0.0);
    }

    /** new_light: appends one point light and changes nothing else. */
    method NewLight(r: real, g: real, b: real, x: real, y: real, z: real)
      requires Valid()
      modifies this
      ensures Valid()
      ensures lights == old(lights) + [Light(Colors.Color(r, g, b), Vector(x, y, z))]
      ensures spheres == old(spheres) && ambientLight == old(ambientLight) && fov == old(fov)
      ensures background == old(background) && eyePosition == old(eyePosition)
      ensures forward == old(forward) && right == old(right) && up == old(up)
    {
      var vec := Vector(x, y, z);
      var col := Colors.Color(r, g, b);
      var light := Light(col, vec);
      lights := lights + [light];
    }

    /** ambient_light: replaces the single ambient colour. */
    method AmbientLight(r: real, g: real, b: real)
      requires Valid()
      modifies this
      ensures Valid()
      ensures ambientLight == Colors.Color(r, g, b)
      ensures spheres == old(spheres) && lights == old(lights) && fov == old(fov)
      ensures background == old(background) && eyePosition == old(eyePosition)
      ensures forward == old(forward) && right == old(right) && up == old(up)
    {
      ambientLight := Colors.Color(r, g, b);
    }

    /** set_background: replaces the background colour. */
    method SetBackground(r: real, g: real, b: real)
      requires Valid()
      modifies this
      ensures Valid()
      ensures background == Colors.Color(r, g, b)
      ensures spheres == old(spheres) && lights == old(lights) && fov == old(fov)
      ensures ambientLight == old(ambientLight) && eyePosition == old(eyePosition)
      ensures forward == old(forward) && right == old(right) && up == old(up)
    {
      background := Colors.Color(r, g, b);
    }

    /** set_fov: stores the angle converted from degrees to radians. */
    method SetFov(theta: real)
      requires Valid()
      modifies this
      ensures Valid()
      ensures fov == theta * deg2rad
      ensures spheres == old(spheres) && lights == old(lights) && background == old(background)
      ensures ambientLight == old(ambientLight) && eyePosition == old(eyePosition)
      ensures forward == old(forward) && right == old(right) && up == old(up)
    {
      fov := theta * deg2rad;
    }

    /** set_eye: places the eye and derives forward = lookAt − eye,
        right = forward × up hint and up = forward × right, an orthogonal frame. */
    method SetEye(x1: real, y1: real, z1: real, x2: real, y2: real, z2: real,
                  x3: real, y3: real, z3: real)
      requires Valid()
      modifies this
      ensures Valid()
      ensures eyePosition == Vector(x1, y1, z1)
      ensures forward == Minus(Vector(x2, y2, z2), Vector(x1, y1, z1))
      ensures right == Cross(forward, Vector(x3, y3, z3))
      ensures up == Cross(forward, right)
      ensures Dot(right, forward) == 0.0 && Dot(up, forward) == 0.0 && Dot(right, up) == 0.0
      ensures spheres == old(spheres) && lights == old(lights) && fov == old(fov)
      ensures ambientLight == old(ambientLight) && background == old(background)
    {
      var u := Vector(x1, y1, z1);
      var v := Vector(x2, y2, z2);
      var w := Vector(x3, y3, z3);
      eyePosition := u;
      forward := Minus(v, u);
      right := Cross(forward, w);
      up := Cross(forward, right);
      CameraBasis(u, v, w);
    }

    /** new_sphere: appends one sphere and changes nothing else. */
    method NewSphere(x: real, y: real, z: real, radius: real, dr: real, dg: real, db: real,
                     kAmbient: real, kSpecular: real, specularPow: real)
      requires Valid()
      modifies this
      ensures Valid()
      ensures spheres == old(spheres)
        + [Sphere(Colors.Color(dr, dg, db), Vector(x, y, z), radius, kAmbient, kSpecular, specularPow)]
      ensures lights == old(lights) && ambientLight == old(ambientLight) && fov == old(fov)
      ensures background == old(background) && eyePosition == old(eyePosition)
      ensures forward == old(forward) && right == old(right) && up == old(up)
    {
      spheres := spheres + [Sphere(Colors.Color(dr, dg, db), Vector(x, y, z), radius,
                                   kAmbient, kSpecular, specularPow)];
    }

    /** eyeRay: starts at the eye; its direction is forward plus multiples of right
        and up, with coordinates (2i − fov)/width and (2j − fov)/height − 1 and a
        component along forward equal to forward·forward. */
    function EyeRay(i: real, j: real): (ray: Ray)
      reads this
      requires Valid()
      ensures ray.start == eyePosition
      ensures ray.dir == Plus(Plus(Times((2.0 * i - fov) / width, right),
                                   Times((2.0 * j - fov) / height - 1.0, up)), forward)
      ensures Dot(ray.dir, forward) == Dot(forward, forward)
      ensures Dot(ray.dir, right) == (2.0 * i - fov) / width * Dot(right, right)
      ensures Dot(ray.dir, up) == ((2.0 * j - fov) / height - 1.0) * Dot(up, up)
    {
      var uu := Times((2.0 * i - fov) / width, right);
      var vv := Times((2.0 * j - fov) / height - 1.0, up);
      var ww := Times(1.0, forward);
      var uv := Plus(uu, vv);
      var uvw := Plus(uv, ww);
      BasisCoordinates((2.0 * i - fov) / width, (2.0 * j - fov) / height - 1.0, 1.0, right, up, forward);
      Ray(eyePosition, uvw)
    }

    /** Every eye ray starts at the eye, so shading it is defined when shading the
        eye position is. */
    predicate SceneShadable()
      reads this
      requires Valid()
    {
      ShadingDefined(sqrt, eyePosition, spheres, lights)
    }

    /** traceRay: the loop over the spheres selects the closest point, found_point is
        assigned false, and the loop over the lights accumulates the shading. */
    method TraceRay(ray: Ray) returns (c: Colors.Color)
      requires Valid()
      requires ShadingDefined(sqrt, ray.start, spheres, lights)
      ensures c == Trace(sqrt, spheres, lights, background, ray)
    {
      var dummyVec := Vector(0.0, 0.0, 0.0);
      var dummySphere := Sphere(Colors.Color(0.0, 0.0, 0.0), dummyVec, 0.0, 0.0, 0.0, 0.0);
      var closestPoint := ClosestPoint(dummyVec, dummySphere);
      var foundPoint := false;
      var r, g, b := 0.0, 0.0, 0.0;

      for k := 0 to |spheres|
        invariant closestPoint == Closest(ray.start, spheres[..k]) && !foundPoint
        invariant r == 0.0 && g == 0.0 && b == 0.0
      {
        var sphere := spheres[k];
        assert spheres[..k + 1][k] == sphere;
        closestPoint := ClosestPoint(ray.start, sphere);
        var a := CoefA(ray);
        var b := CoefB(ray, sphere);
        var c := CoefC(ray, sphere);
        var r := Square(b) - (4.0 * a * c);
        if r >= 0.0 {
          var t1 := Quotient((-1.0 * b) + sqrt(r), 2.0 * a);
          var t2 := Quotient((-1.0 * b) - sqrt(r), 2.0 * a);
          var p1 := PointAt(ray, t1);
          var p2 := PointAt(ray, t2);
          foundPoint := false || Closer(sqrt, p1, closestPoint.point, ray.start);
          if foundPoint {
            closestPoint := ClosestPoint(p1.value, sphere);
            foundPoint := true;
          }
          NeverCloserThanStart(sqrt, p1, ray.start);
          foundPoint := false || Closer(sqrt, p2, closestPoint.point, ray.start);
          if foundPoint {
            closestPoint := ClosestPoint(p2.value, sphere);
            foundPoint := true;
          }
          NeverCloserThanStart(sqrt, p2, ray.start);
        }
      }

      assert spheres[..|spheres|] == spheres;
      SelectionResult(sqrt, ray, spheres);
      foundPoint := false;
      if foundPoint {
        r, g, b := background.r, background.g, background.b;
      } else {
        var n := Normal(sqrt, closestPoint);
        for k := 0 to |lights|
          invariant LightsVisible(sqrt, closestPoint.point, lights[..k])
          invariant Colors.Color(r, g, b) == Shade(sqrt, closestPoint, n, lights[..k])
        {
          var light := lights[k];
          var lightness := Lightness(sqrt, n, closestPoint.point, light);
          ghost var r0, g0, b0 := r, g, b;
          r := r + closestPoint.shape.color.r * (light.color.r * lightness);
          g := g + closestPoint.shape.color.g * (light.color.g * lightness);
          b := b + closestPoint.shape.color.b * (light.color.b * lightness);
          ShadeStep(sqrt, closestPoint, n, lights, k, light, lightness, r0, g0, b0, r, g, b);
        }
        assert lights[..|lights|] == lights;
      }
      c := Colors.Color(r, g, b);
    }

    /** The drawn colour of pixel (x, y): toDrawingColor(traceRay(eyeRay(x, y))). */
    function Pixel(x: nat, y: nat): Colors.DrawingColor
      reads this
      requires Valid() && SceneShadable()
    {
      Colors.ToDrawingColor(Trace(sqrt, spheres, lights, background, EyeRay(x as real, y as real)))
    }

    /** Every pixel draws the same colour: the traced colour depends on the ray start
        only, and every eye ray starts at the eye. */
    lemma UniformImage(x1: nat, y1: nat, x2: nat, y2: nat)
      requires Valid() && SceneShadable()
      ensures Pixel(x1, y1) == Pixel(x2, y2)
    {
      var ray1 := EyeRay(x1 as real, y1 as real);
      var ray2 := EyeRay(x2 as real, y2 as real);
      TraceResult(sqrt, spheres, lights, background, background, ray1, ray2.dir);
    }

    /** row holds the drawn colours of row y, left to right. */
    predicate IsRow(row: seq<Colors.DrawingColor>, y: nat)
      reads this
      requires Valid() && SceneShadable()
    {
      |row| == screenWidth && forall x :: 0 <= x < |row| ==> row[x] == Pixel(x, y)
    }

    /** One pass of renderRow: the drawn colours of row y, left to right. */
    method RenderRow(y: nat) returns (row: seq<Colors.DrawingColor>)
      requires Valid() && SceneShadable()
      ensures IsRow(row, y)
    {
      row := [];
      for x := 0 to screenWidth
        invariant |row| == x
        invariant forall x' :: 0 <= x' < x ==> row[x'] == Pixel(x', y)
      {
        var ray := EyeRay(x as real, y as real);
        var c := TraceRay(ray);
        var color := Colors.ToDrawingColor(c);
        row := row + [color];
      }
    }

    /** draw_scene: renders the rows top to bottom. */
    method DrawScene() returns (image: seq<seq<Colors.DrawingColor>>)
      requires Valid() && SceneShadable()
      ensures |image| == screenHeight
      ensures forall y :: 0 <= y < screenHeight ==> IsRow(image[y], y)
    {
      image := [];
      var y := 0;
      while y < screenHeight
        invariant 0 <= y <= screenHeight
        invariant |image| == y
        invariant forall y' :: 0 <= y' < y ==> IsRow(image[y'], y')
      {
        var row := RenderRow(y);
        image := image + [row];
        y := y + 1;
      }
    }
  }
}
