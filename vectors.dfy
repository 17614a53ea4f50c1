/** The Vector helper class of the ray tracer: real triples used both as points
    and as directions, and the static operations on them. JavaScript numbers are
    modelled as exact reals. */
module Vectors {

  datatype Vector = Vector(x: real, y: real, z: real)

  const Zero := Vector(0.0, 0.0, 0.0)

  /** What the model assumes of Math.sqrt: on every non-negative argument it returns
      the non-negative square root. The square root is passed in as a function value
      because it cannot be written out over the reals. */
  ghost predicate IsSqrt(sqrt: real -> real)
  {
    forall x: real :: 0.0 <= x ==> SqrtAt(sqrt, x)
  }

  /** sqrt(x) is the non-negative square root of x. */
  ghost predicate SqrtAt(sqrt: real -> real, x: real)
  {
    0.0 <= sqrt(x) && sqrt(x) * sqrt(x) == x
  }

  /** Two non-negative numbers with the same square are equal. */
  lemma RootUnique(a: real, b: real)
    requires 0.0 <= a && 0.0 <= b && a * a == b * b
    ensures a == b
  {
    assert (a - b) * (a + b) == 0.0;
    if a + b != 0.0 {
      assert a - b == (a - b) * (a + b) / (a + b);
    }
  }

  /** The non-negative square root is unique, so it is fixed by any witness. */
  lemma SqrtUnique(sqrt: real -> real, x: real, y: real)
    requires IsSqrt(sqrt)
    requires 0.0 <= y && y * y == x
    ensures sqrt(x) == y
  {
    assert SqrtAt(sqrt, x);
    RootUnique(sqrt(x), y);
  }

  /** A sum of three squares is non-negative. */
  lemma SumOfSquares(a: real, b: real, c: real)
    ensures a * a + b * b + c * c >= 0.0
  {
  }

  function Times(k: real, v: Vector): Vector
  {
    Vector(k * v.x, k * v.y, k * v.z)
  }

  function Minus(v1: Vector, v2: Vector): Vector
  {
    Vector(v1.x - v2.x, v1.y - v2.y, v1.z - v2.z)
  }

  function Plus(v1: Vector, v2: Vector): Vector
  {
    Vector(v1.x + v2.x, v1.y + v2.y, v1.z + v2.z)
  }

  function Dot(v1: Vector, v2: Vector): real
  {
    v1.x * v2.x + v1.y * v2.y + v1.z * v2.z
  }

  /** The right-handed cross product, orthogonal to both operands. */
  function Cross(v1: Vector, v2: Vector): (r: Vector)
    ensures Dot(r, v1) == 0.0 && Dot(r, v2) == 0.0
  {
    Vector(v1.y * v2.z - v1.z * v2.y,
           v1.z * v2.x - v1.x * v2.z,
           v1.x * v2.y - v1.y * v2.x)
  }

  /** Length of a vector: Math.sqrt of the sum of the squared components. */
  function Mag(sqrt: real -> real, v: Vector): (m: real)
    requires IsSqrt(sqrt)
    ensures 0.0 <= m
  {
    assert SqrtAt(sqrt, v.x * v.x + v.y * v.y + v.z * v.z);
    sqrt(v.x * v.x + v.y * v.y + v.z * v.z)
  }

  /** On a non-negative argument, sqrt returns a non-negative root. */
  lemma SqrtSquared(sqrt: real -> real, x: real)
    requires IsSqrt(sqrt) && 0.0 <= x
    ensures 0.0 <= sqrt(x) && sqrt(x) * sqrt(x) == x
  {
    assert SqrtAt(sqrt, x);
  }

  /** The magnitude is the square root of the dot product of v with itself. */
  lemma MagIsSqrtDot(sqrt: real -> real, v: Vector)
    requires IsSqrt(sqrt)
    ensures Mag(sqrt, v) == sqrt(Dot(v, v))
  {
  }

  /** The length squared is the dot product of the vector with itself. */
  lemma MagSquared(sqrt: real -> real, v: Vector)
    requires IsSqrt(sqrt)
    ensures Mag(sqrt, v) * Mag(sqrt, v) == Dot(v, v)
  {
    MagIsSqrtDot(sqrt, v);
    SumOfSquares(v.x, v.y, v.z);
    SqrtSquared(sqrt, Dot(v, v));
  }

  /** Unit vector in the direction of v. The source divides one by the magnitude,
      and for magnitude zero it scales by Infinity, giving non-finite components;
      the model requires the magnitude to be nonzero. */
  function Norm(sqrt: real -> real, v: Vector): (n: Vector)
    requires IsSqrt(sqrt)
    requires Mag(sqrt, v) != 0.0
    ensures Dot(n, n) == 1.0
  {
    var mag := Mag(sqrt, v);
    var div := 1.0 / mag;
    UnitScale(sqrt, v, mag, div);
    Times(div, v)
  }

  /** Scaling v by the reciprocal of its magnitude gives squared length one. */
  lemma UnitScale(sqrt: real -> real, v: Vector, mag: real, div: real)
    requires IsSqrt(sqrt)
    requires mag == Mag(sqrt, v) && mag != 0.0 && div == 1.0 / mag
    ensures Dot(Times(div, v), Times(div, v)) == 1.0
  {
    MagSquared(sqrt, v);
    assert mag * div == 1.0;
    assert div * div * Dot(v, v) == 1.0 by {
      assert div * div * (mag * mag) == (mag * div) * (mag * div);
    }
    DotLinear(div, v, v, Times(div, v));
    DotLinear(div, v, Times(div, v), v);
  }

  /** The normalized vector has squared length one, and scaling it back by the
      magnitude gives the original vector. */
  lemma NormUnit(sqrt: real -> real, v: Vector)
    requires IsSqrt(sqrt)
    requires Mag(sqrt, v) != 0.0
    ensures Dot(Norm(sqrt, v), Norm(sqrt, v)) == 1.0
    ensures Times(Mag(sqrt, v), Norm(sqrt, v)) == v
  {
    var mag := Mag(sqrt, v);
    var div := 1.0 / mag;
    assert mag * div == 1.0;
  }

  /** The square of a number, as Math.pow(_, 2) computes it. */
  function Square(a: real): (s: real)
    ensures s >= 0.0
  {
    a * a
  }

  /** Euclidean distance between two points. */
  function Distance(sqrt: real -> real, v1: Vector, v2: Vector): (d: real)
    requires IsSqrt(sqrt)
    ensures 0.0 <= d
  {
    assert SqrtAt(sqrt, Square(v1.x - v2.x) + Square(v1.y - v2.y) + Square(v1.z - v2.z));
    sqrt(Square(v1.x - v2.x) + Square(v1.y - v2.y) + Square(v1.z - v2.z))
  }

  /** The distance squared is the squared length of the difference. */
  lemma DistanceSquared(sqrt: real -> real, v1: Vector, v2: Vector)
    requires IsSqrt(sqrt)
    ensures Distance(sqrt, v1, v2) * Distance(sqrt, v1, v2) == Dot(Minus(v1, v2), Minus(v1, v2))
  {
    assert SqrtAt(sqrt, Square(v1.x - v2.x) + Square(v1.y - v2.y) + Square(v1.z - v2.z));
  }

  // ---- Algebraic laws ----

  /** Scaling by one is the identity. */
  lemma TimesOne(v: Vector)
    ensures Times(1.0, v) == v
  {
  }

  /** Subtraction is undone by addition. */
  lemma MinusPlus(v1: Vector, v2: Vector)
    ensures Plus(Minus(v1, v2), v2) == v1
    ensures Minus(Plus(v1, v2), v2) == v1
  {
  }

  /** The dot product is symmetric and linear in its first argument. */
  lemma DotLinear(k: real, u: Vector, v: Vector, w: Vector)
    ensures Dot(u, v) == Dot(v, u)
    ensures Dot(Plus(u, v), w) == Dot(u, w) + Dot(v, w)
    ensures Dot(Times(k, u), w) == k * Dot(u, w)
  {
  }

  /** The cross product is anti-commutative. */
  lemma CrossAntiCommutative(v1: Vector, v2: Vector)
    ensures Cross(v1, v2) == Times(-1.0, Cross(v2, v1))
    ensures Cross(v1, v1) == Zero
  {
  }

  /** The cross product is orthogonal to both of its operands. */
  lemma CrossOrthogonal(v1: Vector, v2: Vector)
    ensures Dot(Cross(v1, v2), v1) == 0.0
    ensures Dot(Cross(v1, v2), v2) == 0.0
  {
  }

  /** Lagrange's identity in three dimensions. */
  lemma Lagrange(v1: Vector, v2: Vector)
    ensures Dot(v1, v1) * Dot(v2, v2) - Dot(v1, v2) * Dot(v1, v2) == Dot(Cross(v1, v2), Cross(v1, v2))
  {
  }

  /** Cauchy–Schwarz inequality, from Lagrange's identity. */
  lemma CauchySchwarz(v1: Vector, v2: Vector)
    ensures Dot(v1, v2) * Dot(v1, v2) <= Dot(v1, v1) * Dot(v2, v2)
  {
    Lagrange(v1, v2);
    var c := Cross(v1, v2);
    SumOfSquares(c.x, c.y, c.z);
    assert Dot(c, c) >= 0.0;
  }

  /** Three pairwise orthogonal vectors. */
  predicate Orthogonal(u: Vector, v: Vector, w: Vector)
  {
    Dot(u, v) == 0.0 && Dot(u, w) == 0.0 && Dot(v, w) == 0.0
  }

  /** In an orthogonal basis, the dot product with a basis vector picks out the
      coefficient of that vector, scaled by its squared length. */
  lemma BasisCoordinates(p: real, q: real, k: real, u: Vector, v: Vector, w: Vector)
    requires Orthogonal(u, v, w)
    ensures var d := Plus(Plus(Times(p, u), Times(q, v)), Times(k, w));
      Dot(d, u) == p * Dot(u, u) && Dot(d, v) == q * Dot(v, v) && Dot(d, w) == k * Dot(w, w)
  {
    var pu, qv, kw := Times(p, u), Times(q, v), Times(k, w);
    DotLinear(p, u, u, u);
    DotLinear(p, u, v, v);
    DotLinear(p, u, w, w);
    DotLinear(q, v, u, u);
    DotLinear(q, v, v, v);
    DotLinear(q, v, w, w);
    DotLinear(k, w, u, u);
    DotLinear(k, w, v, v);
    DotLinear(k, w, w, w);
    DotLinear(1.0, Plus(pu, qv), kw, u);
    DotLinear(1.0, Plus(pu, qv), kw, v);
    DotLinear(1.0, Plus(pu, qv), kw, w);
    DotLinear(1.0, pu, qv, u);
    DotLinear(1.0, pu, qv, v);
    DotLinear(1.0, pu, qv, w);
  }

  /** A normalized vector has length one. */
  lemma NormIsUnit(sqrt: real -> real, v: Vector)
    requires IsSqrt(sqrt)
    requires Mag(sqrt, v) != 0.0
    ensures Mag(sqrt, Norm(sqrt, v)) == 1.0
  {
    var n := Norm(sqrt, v);
    NormUnit(sqrt, v);
    MagSquared(sqrt, n);
    RootUnique(Mag(sqrt, n), 1.0);
  }

  /** The dot product of two unit vectors lies in [-1, 1]. */
  lemma UnitDotBounded(u: Vector, v: Vector)
    ensures Dot(u, u) == 1.0 && Dot(v, v) == 1.0 ==> -1.0 <= Dot(u, v) <= 1.0
  {
    CauchySchwarz(u, v);
  }

  /** Distance is the length of the difference and is symmetric. */
  lemma DistanceLaws(sqrt: real -> real, v1: Vector, v2: Vector)
    requires IsSqrt(sqrt)
    ensures Distance(sqrt, v1, v2) == Mag(sqrt, Minus(v1, v2))
    ensures Distance(sqrt, v1, v2) == Distance(sqrt, v2, v1)
  {
    DistanceSquared(sqrt, v1, v2);
    DistanceSquared(sqrt, v2, v1);
    MagSquared(sqrt, Minus(v1, v2));
    RootUnique(Distance(sqrt, v1, v2), Mag(sqrt, Minus(v1, v2)));
    assert Dot(Minus(v1, v2), Minus(v1, v2)) == Dot(Minus(v2, v1), Minus(v2, v1));
    RootUnique(Distance(sqrt, v1, v2), Distance(sqrt, v2, v1));
  }

  /** The distance from a point to itself is zero. */
  lemma DistanceSelf(sqrt: real -> real, v: Vector)
    requires IsSqrt(sqrt)
    ensures Distance(sqrt, v, v) == 0.0
  {
    assert Square(v.x - v.x) + Square(v.y - v.y) + Square(v.z - v.z) == 0.0;
    SqrtUnique(sqrt, 0.0, 0.0);
  }
}
