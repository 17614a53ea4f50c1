/** The Color helper class of the ray tracer: real RGB triples, their static
    operations, and the conversion to the 0..255 channels drawn on the canvas. */
module Colors {

  datatype Color = Color(r: real, g: real, b: real)

  function Scale(k: real, v: Color): Color
  {
    Color(k * v.r, k * v.g, k * v.b)
  }

  function Plus(v1: Color, v2: Color): Color
  {
    Color(v1.r + v2.r, v1.g + v2.g, v1.b + v2.b)
  }

  /** Component-wise (Hadamard) product. */
  function Times(v1: Color, v2: Color): Color
  {
    Color(v1.r * v2.r, v1.g * v2.g, v1.b * v2.b)
  }

  const White := Color(1.0, 1.0, 1.0)
  const Grey := Color(0.5, 0.5, 0.5)
  const Black := Color(0.0, 0.0, 0.0)

  /** Every channel is at least zero. */
  predicate NonNegative(c: Color)
  {
    0.0 <= c.r && 0.0 <= c.g && 0.0 <= c.b
  }

  /** The result of the display conversion: integer channels. */
  datatype DrawingColor = DrawingColor(r: int, g: int, b: int)

  /** Clamps a channel from above only; negative values pass through. */
  function Legalize(d: real): real
  {
    if d > 1.0 then 1.0 else d
  }

  /** One channel of the display conversion: Math.floor(legalize(d) * 255). */
  function Channel(d: real): (ch: int)
    ensures ch as real <= Legalize(d) * 255.0 < ch as real + 1.0
    ensures ch <= 255
    ensures ch == 255 <==> 1.0 <= d
    ensures 0.0 <= d <= 1.0 ==> 0 <= ch <= 255
    ensures ch < 0 <==> d < 0.0
  {
    (Legalize(d) * 255.0).Floor
  }

  function ToDrawingColor(c: Color): DrawingColor
  {
    DrawingColor(Channel(c.r), Channel(c.g), Channel(c.b))
  }

  /** No drawn channel exceeds 255, and a non-negative colour draws into [0, 255]
      with every channel that is at least one drawn as exactly 255. */
  lemma DrawingColorRange(c: Color)
    ensures var dc := ToDrawingColor(c);
      dc.r <= 255 && dc.g <= 255 && dc.b <= 255
    ensures NonNegative(c) ==> var dc := ToDrawingColor(c);
      0 <= dc.r && 0 <= dc.g && 0 <= dc.b
    ensures 1.0 <= c.r ==> ToDrawingColor(c).r == 255
    ensures 1.0 <= c.g ==> ToDrawingColor(c).g == 255
    ensures 1.0 <= c.b ==> ToDrawingColor(c).b == 255
  {
  }

  /** The named colours draw as expected; grey is rounded down. */
  lemma NamedColors()
    ensures ToDrawingColor(White) == DrawingColor(255, 255, 255)
    ensures ToDrawingColor(Grey) == DrawingColor(127, 127, 127)
    ensures ToDrawingColor(Black) == DrawingColor(0, 0, 0)
  {
  }

  // ---- Algebraic laws ----

  /** Addition of colours is commutative and associative, with Black as identity. */
  lemma PlusLaws(c1: Color, c2: Color, c3: Color)
    ensures Plus(c1, c2) == Plus(c2, c1)
    ensures Plus(Plus(c1, c2), c3) == Plus(c1, Plus(c2, c3))
    ensures Plus(c1, Black) == c1
  {
  }

  /** The Hadamard product and scaling distribute over addition. */
  lemma Distributive(k: real, c: Color, c1: Color, c2: Color)
    ensures Times(c, Plus(c1, c2)) == Plus(Times(c, c1), Times(c, c2))
    ensures Scale(k, Plus(c1, c2)) == Plus(Scale(k, c1), Scale(k, c2))
  {
  }

  /** The product of two non-negative reals is non-negative. */
  lemma MulNonNegative(a: real, b: real)
    requires 0.0 <= a && 0.0 <= b
    ensures 0.0 <= a * b
  {
  }

  /** Products and sums of non-negative colours are non-negative. */
  lemma NonNegativeClosed(k: real, c1: Color, c2: Color)
    requires 0.0 <= k && NonNegative(c1) && NonNegative(c2)
    ensures NonNegative(Scale(k, c1))
    ensures NonNegative(Times(c1, c2))
    ensures NonNegative(Plus(c1, c2))
  {
    MulNonNegative(k, c1.r);
    MulNonNegative(k, c1.g);
    MulNonNegative(k, c1.b);
    MulNonNegative(c1.r, c2.r);
    MulNonNegative(c1.g, c2.g);
    MulNonNegative(c1.b, c2.b);
  }
}
