/** What the nine `drawPatch` calls of `renderQuilt` leave behind: the shapes they
    fill, in order, and the pixels of the source image once each call has cleared
    its cell. */
module QuiltImage {
  import opened Wrappers
  import opened CodeDecoder
  import opened Colors
  import opened Canvas
  import opened Quilt

  /** `pix` after clearing the cells of the first `n` placements of `plan`, in order,
      each to its colour. */
  function Paint(pix: seq<seq<Color>>, plan: seq<Placement>, colors: seq<Color>, size: int, n: nat): (r: seq<seq<Color>>)
    requires n <= |plan| == |colors|
    ensures |r| == |pix| && forall px :: 0 <= px < |r| ==> |r[px]| == |pix[px]|
  {
    if n == 0 then pix
    else Cleared(Paint(pix, plan, colors, size, n - 1), plan[n - 1].x, plan[n - 1].y, size, size, colors[n - 1])
  }

  /** The source image of `renderQuilt`: a black `3 size` square with the nine
      cells of the plan cleared in call order. */
  function QuiltPixels(p: Params, size: int, fill: Color, background: Color): (pix: seq<seq<Color>>)
    requires WellFormed(p) && size > 0
    ensures |pix| == 3 * size && forall px :: 0 <= px < 3 * size ==> |pix[px]| == 3 * size
  {
    Paint(Blank(3 * size, 3 * size), Plan(p, size), CellColors(p, size, fill, background), size, 9)
  }

  /** The nine shapes `renderQuilt` fills, in call order. */
  function QuiltShapes(p: Params, size: int, fill: Color, background: Color, stroke: Option<Color>): (s: seq<ShapeDraw>)
    requires WellFormed(p)
    ensures |s| == 9
  {
    var plan := Plan(p, size);
    PlanIsPinwheel(p, size);
    seq(9, k requires 0 <= k < 9 => Draw(plan[k], size, fill, background, stroke))
  }

  /** The cells of the first `n` placements of `plan` hold their colours. */
  ghost predicate Painted(pix: seq<seq<Color>>, plan: seq<Placement>, colors: seq<Color>, size: int, n: int)
    requires |plan| == 9 == |colors| && 0 <= n <= 9
  {
    forall k, px, py :: (0 <= k < n && 0 <= px < |pix| && 0 <= py < |pix[px]| &&
      InCell(plan[k], size, px, py)) ==> pix[px][py] == colors[k]
  }

  /** Clearing the cell of the `n`-th placement of a plan on a `3 size` square
      image keeps the cells cleared before it, since no pixel lies in two cells. */
  lemma PaintStep(p: Params, size: int, plan: seq<Placement>, colors: seq<Color>, n: int, before: seq<seq<Color>>)
    requires WellFormed(p) && size > 0 && plan == Plan(p, size) && |colors| == 9 && 0 <= n < 9
    requires |before| == 3 * size && forall px :: 0 <= px < |before| ==> |before[px]| == 3 * size
    requires Painted(before, plan, colors, size, n)
    ensures Painted(Cleared(before, plan[n].x, plan[n].y, size, size, colors[n]), plan, colors, size, n + 1)
  {
    PlanTilesImage(p, size);
    var after := Cleared(before, plan[n].x, plan[n].y, size, size, colors[n]);
    forall k, px, py | 0 <= k < n + 1 && 0 <= px < |after| && 0 <= py < |after[px]| &&
      InCell(plan[k], size, px, py)
      ensures after[px][py] == colors[k]
    {
      if k < n {
        assert before[px][py] == colors[k];
        assert k == CellAt(size, px, py);
        assert !InCell(plan[n], size, px, py);
      }
    }
  }

  lemma {:induction false} PaintFirst(p: Params, size: int, plan: seq<Placement>, colors: seq<Color>,
                                      pix: seq<seq<Color>>, n: nat)
    requires WellFormed(p) && size > 0 && plan == Plan(p, size) && |colors| == 9 && n <= 9
    requires |pix| == 3 * size && forall px :: 0 <= px < |pix| ==> |pix[px]| == 3 * size
    ensures Painted(Paint(pix, plan, colors, size, n), plan, colors, size, n)
  {
    if n > 0 {
      PaintFirst(p, size, plan, colors, pix, n - 1);
      PaintStep(p, size, plan, colors, n - 1, Paint(pix, plan, colors, size, n - 1));
    }
  }

  /** After the nine `clearRect` calls, every pixel of the source image holds the
      colour `drawPatch` cleared the one cell it lies in to: the fill colour when
      that patch is effectively inverted and the background otherwise. Every pixel
      is cleared by exactly one `clearRect` call, and no later one covers an
      earlier cell. The shapes filled and stroked over these cells are recorded
      as `QuiltShapes` and not rasterised. */
  lemma QuiltColours(p: Params, size: int, fill: Color, background: Color, px: int, py: int)
    requires WellFormed(p) && size > 0
    requires 0 <= px < 3 * size && 0 <= py < 3 * size
    ensures var k, plan := CellAt(size, px, py), Plan(p, size);
      InCell(plan[k], size, px, py) &&
      QuiltPixels(p, size, fill, background)[px][py] == CellColors(p, size, fill, background)[k] &&
      (PlanIsPinwheel(p, size);
       QuiltPixels(p, size, fill, background)[px][py] ==
         if PatchStyle(plan[k].patch, plan[k].turn, plan[k].invert, fill, background).invert then fill else background)
  {
    var plan := Plan(p, size);
    PlanTilesImage(p, size);
    PlanIsPinwheel(p, size);
    PaintFirst(p, size, plan, CellColors(p, size, fill, background), Blank(3 * size, 3 * size), 9);
  }

  /** Proof helper: `QuiltShapes` written out placement by placement, so that a
      caller making the nine calls one by one can match it. */
  lemma QuiltShapesUnfold(p: Params, size: int, fill: Color, background: Color, stroke: Option<Color>)
    requires WellFormed(p)
    ensures QuiltShapes(p, size, fill, background, stroke) ==
      [Draw(Placement(size, size, p.middleType, 0, p.middleInvert), size, fill, background, stroke),
       Draw(Placement(size, 0, p.sideType, p.sideTurn, p.sideInvert), size, fill, background, stroke),
       Draw(Placement(size * 2, size, p.sideType, p.sideTurn + 1, p.sideInvert), size, fill, background, stroke),
       Draw(Placement(size, size * 2, p.sideType, p.sideTurn + 2, p.sideInvert), size, fill, background, stroke),
       Draw(Placement(0, size, p.sideType, p.sideTurn + 3, p.sideInvert), size, fill, background, stroke),
       Draw(Placement(0, 0, p.cornerType, p.cornerTurn, p.cornerInvert), size, fill, background, stroke),
       Draw(Placement(size * 2, 0, p.cornerType, p.cornerTurn + 1, p.cornerInvert), size, fill, background, stroke),
       Draw(Placement(size * 2, size * 2, p.cornerType, p.cornerTurn + 2, p.cornerInvert), size, fill, background, stroke),
       Draw(Placement(0, size * 2, p.cornerType, p.cornerTurn + 3, p.cornerInvert), size, fill, background, stroke)]
  {
  }

  /** Proof helper: `CellColors` written out placement by placement. */
  lemma CellColorsUnfold(p: Params, size: int, fill: Color, background: Color)
    requires WellFormed(p)
    ensures CellColors(p, size, fill, background) ==
      [PatchStyle(p.middleType, 0, p.middleInvert, fill, background).cellColor,
       PatchStyle(p.sideType, p.sideTurn, p.sideInvert, fill, background).cellColor,
       PatchStyle(p.sideType, p.sideTurn + 1, p.sideInvert, fill, background).cellColor,
       PatchStyle(p.sideType, p.sideTurn + 2, p.sideInvert, fill, background).cellColor,
       PatchStyle(p.sideType, p.sideTurn + 3, p.sideInvert, fill, background).cellColor,
       PatchStyle(p.cornerType, p.cornerTurn, p.cornerInvert, fill, background).cellColor,
       PatchStyle(p.cornerType, p.cornerTurn + 1, p.cornerInvert, fill, background).cellColor,
       PatchStyle(p.cornerType, p.cornerTurn + 2, p.cornerInvert, fill, background).cellColor,
       PatchStyle(p.cornerType, p.cornerTurn + 3, p.cornerInvert, fill, background).cellColor]
  {
  }

  /** Proof helper: `QuiltPixels` written out as nine nested `Cleared`, one per
      call. */
  lemma QuiltPixelsUnfold(p: Params, size: int, fill: Color, background: Color)
    requires WellFormed(p) && size > 0
    ensures QuiltPixels(p, size, fill, background) ==
      var b0 := Blank(3 * size, 3 * size);
      var b1 := Cleared(b0, size, size, size, size, PatchStyle(p.middleType, 0, p.middleInvert, fill, background).cellColor);
      var b2 := Cleared(b1, size, 0, size, size, PatchStyle(p.sideType, p.sideTurn, p.sideInvert, fill, background).cellColor);
      var b3 := Cleared(b2, size * 2, size, size, size, PatchStyle(p.sideType, p.sideTurn + 1, p.sideInvert, fill, background).cellColor);
      var b4 := Cleared(b3, size, size * 2, size, size, PatchStyle(p.sideType, p.sideTurn + 2, p.sideInvert, fill, background).cellColor);
      var b5 := Cleared(b4, 0, size, size, size, PatchStyle(p.sideType, p.sideTurn + 3, p.sideInvert, fill, background).cellColor);
      var b6 := Cleared(b5, 0, 0, size, size, PatchStyle(p.cornerType, p.cornerTurn, p.cornerInvert, fill, background).cellColor);
      var b7 := Cleared(b6, size * 2, 0, size, size, PatchStyle(p.cornerType, p.cornerTurn + 1, p.cornerInvert, fill, background).cellColor);
      var b8 := Cleared(b7, size * 2, size * 2, size, size, PatchStyle(p.cornerType, p.cornerTurn + 2, p.cornerInvert, fill, background).cellColor);
      Cleared(b8, 0, size * 2, size, size, PatchStyle(p.cornerType, p.cornerTurn + 3, p.cornerInvert, fill, background).cellColor)
  {
    var plan, colors := Plan(p, size), CellColors(p, size, fill, background);
    CellColorsUnfold(p, size, fill, background);
    var b := Blank(3 * size, 3 * size);
    assert Paint(b, plan, colors, size, 1) == Cleared(b, size, size, size, size, colors[0]);
    assert Paint(b, plan, colors, size, 2) == Cleared(Paint(b, plan, colors, size, 1), size, 0, size, size, colors[1]);
    assert Paint(b, plan, colors, size, 3) == Cleared(Paint(b, plan, colors, size, 2), size * 2, size, size, size, colors[2]);
    assert Paint(b, plan, colors, size, 4) == Cleared(Paint(b, plan, colors, size, 3), size, size * 2, size, size, colors[3]);
    assert Paint(b, plan, colors, size, 5) == Cleared(Paint(b, plan, colors, size, 4), 0, size, size, size, colors[4]);
    assert Paint(b, plan, colors, size, 6) == Cleared(Paint(b, plan, colors, size, 5), 0, 0, size, size, colors[5]);
    assert Paint(b, plan, colors, size, 7) == Cleared(Paint(b, plan, colors, size, 6), size * 2, 0, size, size, colors[6]);
    assert Paint(b, plan, colors, size, 8) == Cleared(Paint(b, plan, colors, size, 7), size * 2, size * 2, size, size, colors[7]);
    assert Paint(b, plan, colors, size, 9) == Cleared(Paint(b, plan, colors, size, 8), 0, size * 2, size, size, colors[8]);
  }
}
