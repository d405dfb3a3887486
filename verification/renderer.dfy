/** The 9-block identicon renderer: the patch size and the shapes built for it,
    the background colour, and rendering a code onto a `3 patchSize` square
    source image. */
module NineBlock {
  import opened Wrappers
  import opened JavaInt
  import opened PatchTables
  import opened PatchGeometry
  import opened Colors
  import opened CodeDecoder
  import opened Canvas
  import opened Quilt
  import opened QuiltImage

  const DEFAULT_PATCH_SIZE: int := 20

  /** What `renderQuilt` produces: the source image with every patch cell cleared
      to its colour, the nine shapes it filled on it in call order, and the size
      of the square target image the source is scaled to. */
  datatype Identicon = Identicon(source: array2<Color>, shapes: seq<ShapeDraw>, targetSize: int)

  /** `identicon` is what rendering `code` at `size` gives on a renderer with patch
      size `patchSize` and background `background`: the nine shapes of the plan in
      call order, and as source image a black `3 patchSize` square with the nine
      cells cleared in call order (`QuiltColours` says what colour that leaves on
      each pixel). */
  ghost predicate RenderedFrom(identicon: Identicon, code: Word, size: int, patchSize: int, background: Color)
    reads identicon.source
  {
    var p := Decode(code);
    var fill := FillColor(p);
    DecodeWellFormed(code);
    patchSize > 0 &&
    identicon.source.Length0 == 3 * patchSize && identicon.source.Length1 == 3 * patchSize &&
    identicon.targetSize == size &&
    identicon.shapes == QuiltShapes(p, patchSize, fill, background, StrokeColor(fill, background)) &&
    Pixels(identicon.source) == QuiltPixels(p, patchSize, fill, background)
  }

  class NineBlockIdenticonRenderer {
    var patchSize: Int32
    /** Meant to centre a patch shape on the origin; it does so, and a symmetric
        shape turns in place, only on a centred grid (`Centred`). */
    var patchOffset: int
    var patchShapes: array<seq<Point>>
    var backgroundColor: Color

    /** The shapes are the outlines of the sixteen patches for the current size. */
    ghost predicate Valid()
      reads this, patchShapes
    {
      patchShapes.Length == PATCH_COUNT &&
      patchOffset == Offset(patchSize) &&
      forall i :: IsPatch(i) ==> patchShapes[i] == Outline(patchSize, i)
    }

    constructor ()
      ensures Valid() && fresh(patchShapes)
      ensures patchSize == DEFAULT_PATCH_SIZE && backgroundColor == White
    {
      backgroundColor := White;
      new;
      SetPatchSize(DEFAULT_PATCH_SIZE);
    }

    function GetPatchSize(): Int32
      reads this
    {
      patchSize
    }

    /** Rebuilds the sixteen polygons for patch size `size`: polygon `i` has one
        vertex per entry of `patchTypes[i]`, in order, each grid point scaled by
        `size / 4` and moved by `-size / 2`. */
    method SetPatchSize(size: Int32)
      modifies this
      ensures Valid() && fresh(patchShapes)
      ensures patchSize == size && backgroundColor == old(backgroundColor)
    {
      patchSize := size;
      patchOffset := Div(patchSize, 2);
      var scale := Div(patchSize, PATCH_CELLS);
      var shapes := new seq<Point>[|PatchTypes|];
      patchShapes := shapes;
      TablesWellFormed();
      var i := 0;
      while i < |PatchTypes|
        invariant 0 <= i <= |PatchTypes|
        invariant patchShapes == shapes && patchSize == size && patchOffset == Offset(size)
        invariant scale == Scale(size) && backgroundColor == old(backgroundColor)
        invariant forall k :: 0 <= k < i ==> shapes[k] == Outline(size, k)
      {
        var patch: seq<Point> := [];
        var patchVertices := PatchTypes[i];
        var j := 0;
        while j < |patchVertices|
          invariant 0 <= j <= |patchVertices|
          invariant |patch| == j
          invariant forall m :: 0 <= m < j ==> patch[m] == Outline(size, i)[m]
        {
          var v := patchVertices[j];
          var vx := v % PATCH_GRIDS * scale - patchOffset;
          var vy := v / PATCH_GRIDS * scale - patchOffset;
          patch := patch + [Point(vx, vy)];
          j := j + 1;
        }
        shapes[i] := patch;
        i := i + 1;
      }
    }

    function GetBackgroundColor(): Color
      reads this
    {
      backgroundColor
    }

    method SetBackgroundColor(c: Color)
      requires Valid()
      modifies this
      ensures Valid() && backgroundColor == c
      ensures patchSize == old(patchSize) && patchShapes == old(patchShapes)
    {
      backgroundColor := c;
    }

    /** `drawPatch`: clears the patch's cell to its cell colour and returns the
        shape it fills there. */
    method DrawPatch(image: array2<Color>, x: int, y: int, patch: int, turn: int, invert: bool,
                     fillColor: Color, strokeColor: Option<Color>) returns (shape: ShapeDraw)
      requires Valid() && patch >= 0 && turn >= 0
      modifies image
      ensures Valid()
      ensures shape == Draw(Placement(x, y, patch, turn, invert), patchSize, fillColor, backgroundColor, strokeColor)
      ensures Pixels(image) == Cleared(old(Pixels(image)), x, y, patchSize, patchSize,
                                       PatchStyle(patch, turn, invert, fillColor, backgroundColor).cellColor)
    {
      var patch, turn, invert := patch, turn, invert;
      patch := patch % PATCH_COUNT;
      turn := turn % 4;
      if PatchFlags[patch] & PATCH_INVERTED != 0 {
        invert := !invert;
      }
      ClearRect(image, x, y, patchSize, patchSize, if invert then fillColor else backgroundColor);
      shape := ShapeDraw(x + patchOffset, y + patchOffset, turn, patchShapes[patch], strokeColor,
                         if invert then backgroundColor else fillColor);
    }

    /** `renderQuilt`: decodes the code, picks the stroke colour, draws the nine
        patches on a fresh `3 patchSize` square image and records the size of the
        target image it is scaled to. A source or target image that
        `new BufferedImage` refuses is an exception. */
    method RenderQuilt(code: Word, size: Int32) returns (r: Result<Identicon, ImageError>)
      requires Valid()
      ensures r.Failure? <==> !Allocatable(3 * patchSize, 3 * patchSize) || !Allocatable(size, size)
      ensures r.Success? ==> fresh(r.value.source) && RenderedFrom(r.value, code, size, patchSize, backgroundColor)
    {
      var p := Decode(code);
      DecodeWellFormed(code);
      var fillColor := FillColor(p);
      var strokeColor: Option<Color> := None;
      if DistanceSquared(fillColor, backgroundColor) < 1024 {
        strokeColor := Some(Complementary(fillColor));
      }
      var sourceSize := patchSize * 3;
      var created := NewImage(sourceSize, sourceSize);
      if created.Failure? {
        return Failure(created.error);
      }
      var g := created.value;
      var shapes := RenderSource(g, p, fillColor, strokeColor);

      // the target image
      if size <= 0 {
        return Failure(IllegalArgument);
      }
      if size * size >= INT_MAX {
        return Failure(TooLarge);
      }
      r := Success(Identicon(g, shapes, size));
    }

    /** The source-size part of `renderQuilt`: the nine `drawPatch` calls on a fresh
        black image, with `sideTurn++` and `cornerTurn++` turning each ring position
        one more quarter turn. */
    method RenderSource(g: array2<Color>, p: Params, fillColor: Color, strokeColor: Option<Color>)
      returns (shapes: seq<ShapeDraw>)
      requires Valid() && WellFormed(p) && patchSize > 0
      requires g.Length0 == 3 * patchSize && g.Length1 == 3 * patchSize && Pixels(g) == Blank(3 * patchSize, 3 * patchSize)
      modifies g
      ensures shapes == QuiltShapes(p, patchSize, fillColor, backgroundColor, strokeColor)
      ensures Pixels(g) == QuiltPixels(p, patchSize, fillColor, backgroundColor)
    {
      var sideTurn, cornerTurn := p.sideTurn, p.cornerTurn;

      // middle patch
      var middle := DrawPatch(g, patchSize, patchSize, p.middleType, 0, p.middleInvert, fillColor, strokeColor);

      // side patches, starting from the top and moving clockwise
      var top := DrawPatch(g, patchSize, 0, p.sideType, sideTurn, p.sideInvert, fillColor, strokeColor);
      sideTurn := sideTurn + 1;
      var right := DrawPatch(g, patchSize * 2, patchSize, p.sideType, sideTurn, p.sideInvert, fillColor, strokeColor);
      sideTurn := sideTurn + 1;
      var bottom := DrawPatch(g, patchSize, patchSize * 2, p.sideType, sideTurn, p.sideInvert, fillColor, strokeColor);
      sideTurn := sideTurn + 1;
      var left := DrawPatch(g, 0, patchSize, p.sideType, sideTurn, p.sideInvert, fillColor, strokeColor);
      sideTurn := sideTurn + 1;

      // corner patches, starting from the top left and moving clockwise
      var topLeft := DrawPatch(g, 0, 0, p.cornerType, cornerTurn, p.cornerInvert, fillColor, strokeColor);
      cornerTurn := cornerTurn + 1;
      var topRight := DrawPatch(g, patchSize * 2, 0, p.cornerType, cornerTurn, p.cornerInvert, fillColor, strokeColor);
      cornerTurn := cornerTurn + 1;
      var bottomRight := DrawPatch(g, patchSize * 2, patchSize * 2, p.cornerType, cornerTurn, p.cornerInvert, fillColor, strokeColor);
      cornerTurn := cornerTurn + 1;
      var bottomLeft := DrawPatch(g, 0, patchSize * 2, p.cornerType, cornerTurn, p.cornerInvert, fillColor, strokeColor);
      cornerTurn := cornerTurn + 1;

      QuiltShapesUnfold(p, patchSize, fillColor, backgroundColor, strokeColor);
      QuiltPixelsUnfold(p, patchSize, fillColor, backgroundColor);
      shapes := [middle, top, right, bottom, left, topLeft, topRight, bottomRight, bottomLeft];
    }

    /** `render(int code, int size)` */
    method Render(code: Word, size: Int32) returns (r: Result<Identicon, ImageError>)
      requires Valid()
      ensures r.Failure? <==> !Allocatable(3 * patchSize, 3 * patchSize) || !Allocatable(size, size)
      ensures r.Success? ==> fresh(r.value.source) && RenderedFrom(r.value, code, size, patchSize, backgroundColor)
    {
      r := RenderQuilt(code, size);
    }

    /** `render(BigInteger code, int size)`: only the low 32 bits of the code,
        `code.intValue()`, are used. */
    method RenderBig(code: int, size: Int32) returns (r: Result<Identicon, ImageError>)
      requires Valid()
      ensures r.Failure? <==> !Allocatable(3 * patchSize, 3 * patchSize) || !Allocatable(size, size)
      ensures r.Success? ==> fresh(r.value.source) && RenderedFrom(r.value, IntValue(code), size, patchSize, backgroundColor)
    {
      r := RenderQuilt(IntValue(code), size);
    }
  }
}
