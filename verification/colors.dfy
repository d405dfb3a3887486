/** Colours as `java.awt.Color` holds them (three 8-bit channels, opaque), the
    complementary colour, and the colour distance that decides whether patches
    get an outline. */
module Colors {
  import opened JavaInt
  import opened Wrappers

  type Channel = x: int | 0 <= x < 256

  datatype Color = Color(red: Channel, green: Channel, blue: Channel)

  const White: Color := Color(255, 255, 255)
  const Black: Color := Color(0, 0, 0)

  /** `Color.getRGB()`: alpha 0xFF in bits 24-31, red in 16-23, green in 8-15,
      blue in 0-7. */
  function Rgb(c: Color): Word
  {
    0xFF00_0000 + 0x1_0000 * c.red + 0x100 * c.green + c.blue
  }

  /** `new Color(int rgb)`: red from bits 16-23, green from 8-15, blue from 0-7;
      the top byte is ignored. */
  function FromRgb(w: Word): Color
  {
    Color(w / 0x1_0000 % 0x100, w / 0x100 % 0x100, w % 0x100)
  }

  /** `w ^ 0x00FFFFFF`: the low 24 bits are complemented, which for a 24-bit
      number `x` gives `0xFFFFFF - x`, and the top byte is kept. */
  function XorLow24(w: Word): Word
  {
    w / 0x100_0000 * 0x100_0000 + (0xFF_FFFF - w % 0x100_0000)
  }

  /** Complementing within 24 bits is subtracting from all ones. This is what
      justifies writing `^ 0x00FFFFFF` arithmetically in `XorLow24`: the low 24 bits
      are complemented this way and the top byte, xor-ed with zero, is kept. The
      step from the 32-bit pattern to its low 24 bits is by that definition and is
      not proved on bit-vectors. */
  lemma XorAllOnes(x: bv24)
    ensures x ^ 0xFF_FFFF == 0xFF_FFFF - x
  {
  }

  /** `getComplementaryColor`: `new Color(color.getRGB() ^ 0x00FFFFFF)`. */
  function Complementary(c: Color): Color
  {
    FromRgb(XorLow24(Rgb(c)))
  }

  /** A colour read back from its packed form is the same colour. */
  lemma {:induction false} FromRgbOfRgb(c: Color)
    ensures FromRgb(Rgb(c)) == c
  {
    var w := Rgb(c);
    Digit(w, 0x1_0000, 0x100, 0x100 * c.green + c.blue, c.red, 0xFF);
    Digit(w, 0x100, 0x100, c.blue, c.green, 0x100 * 0xFF + c.red);
    Digit(w, 1, 0x100, 0, c.blue, 0x1_0000 * 0xFF + 0x100 * c.red + c.green);
  }

  /** The complementary colour replaces every channel `v` by `255 - v`. */
  lemma {:induction false} ComplementaryIsChannelwise(c: Color)
    ensures Complementary(c) == Color(255 - c.red, 255 - c.green, 255 - c.blue)
  {
    var w := Rgb(c);
    var low := 0x1_0000 * c.red + 0x100 * c.green + c.blue;
    DivModUnique(w, 0x100_0000, 0xFF, low);
    var x := XorLow24(w);
    assert x == 0xFF00_0000 + 0x1_0000 * (255 - c.red) + 0x100 * (255 - c.green) + (255 - c.blue);
    FromRgbOfRgb(Color(255 - c.red, 255 - c.green, 255 - c.blue));
  }

  /** Complementing twice gives the original colour back. */
  lemma ComplementaryInvolutive(c: Color)
    ensures Complementary(Complementary(c)) == c
  {
    ComplementaryIsChannelwise(c);
    ComplementaryIsChannelwise(Complementary(c));
  }

  /** The square of `getColorDistance`: the Euclidean distance between two colours
      in RGB space, squared. */
  function DistanceSquared(a: Color, b: Color): (d: nat)
    ensures d <= 3 * 255 * 255
  {
    var dr, dg, db := a.red - b.red, a.green - b.green, a.blue - b.blue;
    assert dr * dr <= 255 * 255 && dg * dg <= 255 * 255 && db * db <= 255 * 255 by {
      SquareBound(dr); SquareBound(dg); SquareBound(db);
    }
    dr * dr + dg * dg + db * db
  }

  lemma SquareBound(d: int)
    requires -255 <= d <= 255
    ensures 0 <= d * d <= 255 * 255
  {
    if d < 0 {
      MulLe(-d, -d, 255);
      MulLe(255, -d, 255);
    } else {
      MulLe(d, d, 255);
      MulLe(255, d, 255);
    }
  }

  /** A square root `r` of the squared distance is below 32 exactly when the
      squared distance is below 1024: the test `getColorDistance(..) < 32.0f` is
      the integer test `DistanceSquared(..) < 1024`. */
  lemma DistanceBelow32(s: nat, r: real)
    requires 0.0 <= r && r * r == s as real
    ensures r < 32.0 <==> s < 1024
  {
    if r >= 32.0 {
      assert r * r >= 32.0 * r >= 32.0 * 32.0;
    } else {
      assert r * r <= 32.0 * r < 32.0 * 32.0;
    }
  }

  /** The stroke decision of `renderQuilt`: outline in the complementary colour
      when the fill colour is closer than 32 to the background. */
  function StrokeColor(fill: Color, background: Color): Option<Color>
  {
    if DistanceSquared(fill, background) < 1024 then Some(Complementary(fill)) else None
  }

  /** A stroke is drawn exactly when the colours are within distance 32, and it is
      then the channel-wise complement of the fill colour. */
  lemma StrokeWhenClose(fill: Color, background: Color)
    ensures StrokeColor(fill, background).Some? <==> DistanceSquared(fill, background) < 1024
    ensures StrokeColor(fill, background).Some? ==>
      StrokeColor(fill, background).value == Color(255 - fill.red, 255 - fill.green, 255 - fill.blue)
  {
    ComplementaryIsChannelwise(fill);
  }

  /** On the default white background, only pale fill colours (every channel at
      least 224) get a stroke. */
  lemma StrokeOnWhiteOnlyForPale(fill: Color)
    requires StrokeColor(fill, White).Some?
    ensures fill.red >= 224 && fill.green >= 224 && fill.blue >= 224
  {
    var dr, dg, db := fill.red - 255, fill.green - 255, fill.blue - 255;
    assert dr * dr + dg * dg + db * db < 1024;
    SquareAtLeast(dr);
    SquareAtLeast(dg);
    SquareAtLeast(db);
  }

  lemma SquareAtLeast(d: int)
    ensures 0 <= d * d
    ensures d <= -32 ==> d * d >= 1024
  {
    if d <= -32 {
      MulLe(-d, 32, -d);
      MulLe(32, 32, -d);
    }
  }

  /** On a white background the stroke, when there is one, is far from the fill
      colour it outlines: every channel differs by at least 193. */
  lemma StrokeContrastsWithFillOnWhite(fill: Color)
    requires StrokeColor(fill, White).Some?
    ensures var s := StrokeColor(fill, White).value;
      s.red <= fill.red - 193 && s.green <= fill.green - 193 && s.blue <= fill.blue - 193
  {
    StrokeOnWhiteOnlyForPale(fill);
    StrokeWhenClose(fill, White);
  }
}
