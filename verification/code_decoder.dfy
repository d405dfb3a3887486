/** Decoding a 32-bit identicon code into the parameters of the nine patches
    (the first part of `renderQuilt`), and the encoding that inverts it. */
module CodeDecoder {
  import opened JavaInt
  import opened PatchTables
  import opened Colors

  /** The parameters `renderQuilt` reads from a code. */
  datatype Params = Params(
    middleType: int, middleInvert: bool,
    cornerType: int, cornerInvert: bool, cornerTurn: int,
    sideType: int, sideInvert: bool, sideTurn: int,
    blue: int, green: int, red: int)

  /** Parameters some code decodes to. Bit 16 is read twice, as the high bit of
      the side turn and as the low bit of blue, so the two must agree. */
  predicate WellFormed(p: Params)
  {
    p.middleType in CenterPatchTypes &&
    0 <= p.cornerType < 16 && 0 <= p.cornerTurn < 4 &&
    0 <= p.sideType < 16 && 0 <= p.sideTurn < 4 &&
    0 <= p.blue < 32 && 0 <= p.green < 32 && 0 <= p.red < 32 &&
    p.sideTurn / 2 == p.blue % 2
  }

  /** The mask-and-shift decoding of `renderQuilt`; each field is
      `(code >> shift) & mask` on the bit pattern of the code. */
  function Decode(code: Word): (p: Params)
    ensures p.middleType in {0, 4, 8, 15}
    ensures 0 <= p.cornerType < 16 && 0 <= p.sideType < 16
    ensures 0 <= p.cornerTurn < 4 && 0 <= p.sideTurn < 4
    ensures 0 <= p.red < 32 && 0 <= p.green < 32 && 0 <= p.blue < 32
  {
    Params(
      middleType := CenterPatchTypes[code % 4],     // centerPatchTypes[code & 0x3]
      middleInvert := code / 4 % 2 != 0,            // ((code >> 2) & 0x1) != 0
      cornerType := code / 8 % 16,                  // (code >> 3) & 0x0f
      cornerInvert := code / 0x80 % 2 != 0,         // ((code >> 7) & 0x1) != 0
      cornerTurn := code / 0x100 % 4,               // (code >> 8) & 0x3
      sideType := code / 0x400 % 16,                // (code >> 10) & 0x0f
      sideInvert := code / 0x4000 % 2 != 0,         // ((code >> 14) & 0x1) != 0
      sideTurn := code / 0x8000 % 4,                // (code >> 15) & 0x3
      blue := code / 0x1_0000 % 0x20,               // (code >> 16) & 0x01f
      green := code / 0x20_0000 % 0x20,             // (code >> 21) & 0x01f
      red := code / 0x800_0000 % 0x20)              // (code >> 27) & 0x01f
  }

  /** The fill colour: each 5-bit field shifted left by 3. */
  function FillColor(p: Params): (c: Color)
    requires 0 <= p.red < 32 && 0 <= p.green < 32 && 0 <= p.blue < 32
    ensures c.red % 8 == 0 && c.green % 8 == 0 && c.blue % 8 == 0
    ensures c.red <= 248 && c.green <= 248 && c.blue <= 248
    ensures c.red / 8 == p.red && c.green / 8 == p.green && c.blue / 8 == p.blue
  {
    Color(p.red * 8, p.green * 8, p.blue * 8)
  }

  /** `code ^ (1 << 26)` */
  function FlipBit26(code: Word): Word
  {
    if code / 0x400_0000 % 2 == 0 then code + 0x400_0000 else code - 0x400_0000
  }

  /** `code & ~(1 << 26)` */
  function ClearBit26(code: Word): Word
  {
    code - code / 0x400_0000 % 2 * 0x400_0000
  }

  function Bit(b: bool): int
  {
    if b then 1 else 0
  }

  /** Position of a middle patch in `centerPatchTypes`. */
  function CenterIndex(t: int): (k: int)
    requires t in CenterPatchTypes
    ensures 0 <= k < 4 && CenterPatchTypes[k] == t
  {
    if t == 0 then 0 else if t == 4 then 1 else if t == 8 then 2 else 3
  }

  /** The code, with bit 26 clear, that decodes to `p`. */
  function Encode(p: Params): Word
    requires WellFormed(p)
  {
    CenterIndex(p.middleType) + 4 * Bit(p.middleInvert) + 8 * p.cornerType +
    0x80 * Bit(p.cornerInvert) + 0x100 * p.cornerTurn + 0x400 * p.sideType +
    0x4000 * Bit(p.sideInvert) + 0x8000 * (p.sideTurn % 2) + 0x1_0000 * p.blue +
    0x20_0000 * p.green + 0x800_0000 * p.red
  }

  /** Every code decodes to well-formed parameters: in particular the high bit of
      the side turn is the low bit of blue (bit 16). */
  lemma {:induction false} DecodeWellFormed(code: Word)
    ensures WellFormed(Decode(code))
    ensures Decode(code).sideTurn >= 2 <==> Decode(code).blue % 2 == 1
  {
    var y := code / 0x8000;
    ModSplit(code, 0x8000, 2);
    ModSplit(y, 2, 2);
    ModSplit(y / 2, 2, 16);
    var z := y / 2;
    DivModUnique(z % 32, 2, z % 32 / 2, z % 2);
  }

  /** Decoding inverts encoding on well-formed parameters. */
  lemma DecodeEncode(p: Params)
    requires WellFormed(p)
    ensures Decode(Encode(p)) == p
  {
    EncodeLowFields(p);
    EncodeHighFields(p);
  }

  /** Bits 0-9 of an encoding hold the middle and corner fields. */
  lemma {:induction false} EncodeLowFields(p: Params)
    requires WellFormed(p)
    ensures var x := Encode(p);
      x % 4 == CenterIndex(p.middleType) && x / 4 % 2 == Bit(p.middleInvert) &&
      x / 8 % 16 == p.cornerType && x / 0x80 % 2 == Bit(p.cornerInvert) && x / 0x100 % 4 == p.cornerTurn
  {
    var x := Encode(p);
    var sel, mi, ct, ci, cn := CenterIndex(p.middleType), Bit(p.middleInvert), p.cornerType, Bit(p.cornerInvert), p.cornerTurn;
    var st, si, sn, b, g, r := p.sideType, Bit(p.sideInvert), p.sideTurn % 2, p.blue, p.green, p.red;
    Digit(x, 1, 4, 0, sel,
      mi + 2 * ct + 0x20 * ci + 0x40 * cn + 0x100 * st + 0x1000 * si + 0x2000 * sn + 0x4000 * b + 0x8_0000 * g + 0x200_0000 * r);
    Digit(x, 4, 2, sel, mi,
      ct + 0x10 * ci + 0x20 * cn + 0x80 * st + 0x800 * si + 0x1000 * sn + 0x2000 * b + 0x4_0000 * g + 0x100_0000 * r);
    Digit(x, 8, 0x10, sel + 4 * mi, ct,
      ci + 2 * cn + 8 * st + 0x80 * si + 0x100 * sn + 0x200 * b + 0x4000 * g + 0x10_0000 * r);
    Digit(x, 0x80, 2, sel + 4 * mi + 8 * ct, ci,
      cn + 4 * st + 0x40 * si + 0x80 * sn + 0x100 * b + 0x2000 * g + 0x8_0000 * r);
    Digit(x, 0x100, 4, sel + 4 * mi + 8 * ct + 0x80 * ci, cn,
      st + 0x10 * si + 0x20 * sn + 0x40 * b + 0x800 * g + 0x2_0000 * r);
  }

  /** Bits 10-31 of an encoding hold the side fields and the colour; bit 16 is
      both the high bit of the side turn and the low bit of blue. */
  lemma {:induction false} EncodeHighFields(p: Params)
    requires WellFormed(p)
    ensures var x := Encode(p);
      x / 0x400 % 16 == p.sideType && x / 0x4000 % 2 == Bit(p.sideInvert) && x / 0x8000 % 4 == p.sideTurn &&
      x / 0x1_0000 % 0x20 == p.blue && x / 0x20_0000 % 0x20 == p.green && x / 0x800_0000 % 0x20 == p.red
  {
    var x := Encode(p);
    var sel, mi, ct, ci, cn := CenterIndex(p.middleType), Bit(p.middleInvert), p.cornerType, Bit(p.cornerInvert), p.cornerTurn;
    var st, si, sn, b, g, r := p.sideType, Bit(p.sideInvert), p.sideTurn % 2, p.blue, p.green, p.red;
    var lo := sel + 4 * mi + 8 * ct + 0x80 * ci + 0x100 * cn;
    Digit(x, 0x400, 0x10, lo, st,
      si + 2 * sn + 4 * b + 0x80 * g + 0x2000 * r);
    Digit(x, 0x4000, 2, lo + 0x400 * st, si,
      sn + 2 * b + 0x40 * g + 0x1000 * r);
    Digit(x, 0x8000, 4, lo + 0x400 * st + 0x4000 * si, sn + 2 * (b % 2),
      b / 2 + 0x10 * g + 0x400 * r);
    lo := lo + 0x400 * st + 0x4000 * si + 0x8000 * sn;
    Digit(x, 0x1_0000, 0x20, lo, b, g + 0x40 * r);
    Digit(x, 0x20_0000, 0x20, lo + 0x1_0000 * b, g, 2 * r);
    Digit(x, 0x800_0000, 0x20, lo + 0x1_0000 * b + 0x20_0000 * g, r, 0);
  }

  /** A code is the sum of its bit fields, bit 26 included. */
  lemma {:induction false} SumOfFields(c: Word)
    ensures c == c % 4 + 4 * (c / 4 % 2) + 8 * (c / 8 % 0x10) + 0x80 * (c / 0x80 % 2) +
      0x100 * (c / 0x100 % 4) + 0x400 * (c / 0x400 % 0x10) + 0x4000 * (c / 0x4000 % 2) +
      0x8000 * (c / 0x8000 % 2) + 0x1_0000 * (c / 0x1_0000 % 0x20) +
      0x20_0000 * (c / 0x20_0000 % 0x20) + 0x400_0000 * (c / 0x400_0000 % 2) +
      0x800_0000 * (c / 0x800_0000 % 0x20)
  {
    assert c % 0x1_0000_0000 == c;
    ModSplit(c, 0x800_0000, 0x20);
    ModSplit(c, 0x400_0000, 2);
    ModSplit(c, 0x20_0000, 0x20);
    ModSplit(c, 0x1_0000, 0x20);
    ModSplit(c, 0x8000, 2);
    ModSplit(c, 0x4000, 2);
    ModSplit(c, 0x400, 0x10);
    ModSplit(c, 0x100, 4);
    ModSplit(c, 0x80, 2);
    ModSplit(c, 8, 0x10);
    ModSplit(c, 4, 2);
  }

  /** Every code is the encoding of its parameters, up to bit 26 (which no field
      reads): the fields together with bit 26 determine the code. */
  lemma {:induction false} EncodeDecode(code: Word)
    ensures WellFormed(Decode(code))
    ensures Encode(Decode(code)) == ClearBit26(code)
  {
    DecodeWellFormed(code);
    var p := Decode(code);
    var y := code / 0x8000;
    ModSplit(y, 2, 2);
    DivModUnique(y % 4, 2, y / 2 % 2, y % 2);
    assert p.sideTurn % 2 == y % 2;
    var k := code % 4;
    assert CenterIndex(p.middleType) == k by {
      assert p.middleType == CenterPatchTypes[k];
      if k == 0 {} else if k == 1 {} else if k == 2 {} else {}
    }
    assert Encode(p) == k + 4 * (code / 4 % 2) + 8 * (code / 8 % 0x10) + 0x80 * (code / 0x80 % 2) +
      0x100 * (code / 0x100 % 4) + 0x400 * (code / 0x400 % 0x10) + 0x4000 * (code / 0x4000 % 2) +
      0x8000 * (code / 0x8000 % 2) + 0x1_0000 * (code / 0x1_0000 % 0x20) +
      0x20_0000 * (code / 0x20_0000 % 0x20) + 0x800_0000 * (code / 0x800_0000 % 0x20);
    SumOfFields(code);
  }

  /** Decoding ignores bit 26: clearing or flipping it changes no field. */
  lemma {:induction false} DecodeIgnoresBit26(code: Word)
    ensures Decode(ClearBit26(code)) == Decode(code)
    ensures Decode(FlipBit26(code)) == Decode(code)
  {
    EncodeDecode(code);
    DecodeEncode(Decode(code));
    var flipped := FlipBit26(code);
    EncodeDecode(flipped);
    DecodeEncode(Decode(flipped));
    var lo, b, hi := code % 0x400_0000, code / 0x400_0000 % 2, code / 0x800_0000;
    ModSplit(code, 0x400_0000, 2);
    assert code == lo + 0x400_0000 * b + 0x800_0000 * hi;
    Digit(flipped, 0x400_0000, 2, lo, 1 - b, hi);
    assert ClearBit26(flipped) == ClearBit26(code);
  }

  /** Two codes decode alike exactly when they differ at most in bit 26. */
  lemma DecodeSameIffSameBesideBit26(a: Word, b: Word)
    ensures Decode(a) == Decode(b) <==> ClearBit26(a) == ClearBit26(b)
  {
    EncodeDecode(a);
    EncodeDecode(b);
    DecodeIgnoresBit26(a);
    DecodeIgnoresBit26(b);
  }
}
