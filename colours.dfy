/** Edge colours: the weight-driven blend of `color_mix` and the fixed colour of disabled edges. */
module Colours {
  import opened Wrappers

  datatype Rgb = Rgb(red: real, green: real, blue: real)

  /** `colors`: the colour of strongly positive weights first, that of non-positive weights second. */
  datatype Palette = Palette(positive: Rgb, negative: Rgb)

  /** The palette used when `colors` is not given. */
  const DefaultPalette := Palette(Rgb(255.0, 25.0, 25.0), Rgb(25.0, 255.0, 25.0))

  /** A colour handed to a draw call: pygame's named colour `'gray'`, or explicit channels. */
  datatype Colour = Gray | Channels(rgb: Rgb)

  /** The colour of every node circle. */
  const White := Channels(Rgb(255.0, 255.0, 255.0))

  /** `colors`, or red for positive and green for negative weights when it is not given. */
  function PaletteOrDefault(colors: Option<Palette>): (p: Palette)
    ensures colors.Some? ==> p == colors.value
    ensures colors.None? ==> p.positive == Rgb(255.0, 25.0, 25.0) && p.negative == Rgb(25.0, 255.0, 25.0)
  {
    match colors
    case None => DefaultPalette
    case Some(p) => p
  }

  function MinReal(a: real, b: real): real {
    if a < b then a else b
  }

  function MaxReal(a: real, b: real): real {
    if a < b then b else a
  }

  /** `clamp`: `val` itself inside [0, 1], the nearer bound outside it. */
  function Clamp(v: real): (r: real)
    ensures 0.0 <= r <= 1.0
    ensures 0.0 <= v <= 1.0 ==> r == v
    ensures v < 0.0 ==> r == 0.0
    ensures v > 1.0 ==> r == 1.0
  {
    MinReal(1.0, MaxReal(v, 0.0))
  }

  /** One channel of the blend: `positive * t + negative * (1 - t)`. */
  function Blend(positive: real, negative: real, t: real): real {
    positive * t + negative * (1.0 - t)
  }

  /** `color_mix`: each channel blended with `t = clamp(weight / 4)`. */
  function ColorMix(colors: Palette, weight: real): Rgb {
    var t := Clamp(weight / 4.0);
    Rgb(Blend(colors.positive.red, colors.negative.red, t),
        Blend(colors.positive.green, colors.negative.green, t),
        Blend(colors.positive.blue, colors.negative.blue, t))
  }

  /** The colour of an included edge: the blend when it is enabled, `'gray'` when it is disabled. */
  function EdgeColour(enabled: bool, weight: real, colors: Palette): Colour {
    if enabled then Channels(ColorMix(colors, weight)) else Gray
  }

  predicate Between(x: real, a: real, b: real) {
    MinReal(a, b) <= x <= MaxReal(a, b)
  }

  lemma MulNonneg(a: real, b: real)
    requires 0.0 <= a && 0.0 <= b
    ensures 0.0 <= a * b
  {
  }

  lemma BlendBetween(positive: real, negative: real, t: real)
    requires 0.0 <= t <= 1.0
    ensures Between(Blend(positive, negative, t), positive, negative)
  {
    var d := positive - negative;
    assert Blend(positive, negative, t) == negative + d * t;
    assert d * t + d * (1.0 - t) == d;
    if d >= 0.0 {
      MulNonneg(d, t);
      MulNonneg(d, 1.0 - t);
    } else {
      MulNonneg(-d, t);
      MulNonneg(-d, 1.0 - t);
    }
  }

  /**
   * A weight of 0 or less gives exactly the second colour, a weight of 4 or more exactly the first,
   * and every channel of every blend lies between the two colours' channels.
   */
  lemma ColorMixRange(colors: Palette, weight: real)
    ensures weight <= 0.0 ==> ColorMix(colors, weight) == colors.negative
    ensures weight >= 4.0 ==> ColorMix(colors, weight) == colors.positive
    ensures Between(ColorMix(colors, weight).red, colors.positive.red, colors.negative.red)
    ensures Between(ColorMix(colors, weight).green, colors.positive.green, colors.negative.green)
    ensures Between(ColorMix(colors, weight).blue, colors.positive.blue, colors.negative.blue)
  {
    var t := Clamp(weight / 4.0);
    BlendBetween(colors.positive.red, colors.negative.red, t);
    BlendBetween(colors.positive.green, colors.negative.green, t);
    BlendBetween(colors.positive.blue, colors.negative.blue, t);
  }

  /** A weight of 2 is halfway: each channel is the mean of the two colours'. */
  lemma ColorMixHalfway(colors: Palette)
    ensures ColorMix(colors, 2.0) ==
            Rgb((colors.positive.red + colors.negative.red) / 2.0,
                (colors.positive.green + colors.negative.green) / 2.0,
                (colors.positive.blue + colors.negative.blue) / 2.0)
  {
    assert Clamp(2.0 / 4.0) == 0.5;
  }

  /** A disabled edge is gray whatever its weight and whatever the palette. */
  lemma DisabledEdgeIsGray(weight: real, colors: Palette)
    ensures EdgeColour(false, weight, colors) == Gray
  {
  }
}
