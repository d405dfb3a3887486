/** What `renderQuilt` asks `drawPatch` to draw: the nine placements in call
    order, how `drawPatch` normalises each one (patch, turn, invert, the two
    colours), and the shape it then hands to the graphics context. */
module Quilt {
  import opened Wrappers
  import opened JavaInt
  import opened PatchTables
  import opened PatchGeometry
  import opened Colors
  import opened CodeDecoder
  import opened Canvas

  /** The arguments `x, y, patch, turn, invert` of one `drawPatch` call. */
  datatype Placement = Placement(x: int, y: int, patch: int, turn: int, invert: bool)

  /** The nine `drawPatch` calls of `renderQuilt`, in order: the middle, the four
      sides clockwise from the top, the four corners clockwise from the top left;
      `sideTurn++` and `cornerTurn++` give each ring position one more turn. */
  function Plan(p: Params, size: int): (plan: seq<Placement>)
    ensures |plan| == 9
  {
    [Placement(size, size, p.middleType, 0, p.middleInvert),
     Placement(size, 0, p.sideType, p.sideTurn, p.sideInvert),
     Placement(size * 2, size, p.sideType, p.sideTurn + 1, p.sideInvert),
     Placement(size, size * 2, p.sideType, p.sideTurn + 2, p.sideInvert),
     Placement(0, size, p.sideType, p.sideTurn + 3, p.sideInvert),
     Placement(0, 0, p.cornerType, p.cornerTurn, p.cornerInvert),
     Placement(size * 2, 0, p.cornerType, p.cornerTurn + 1, p.cornerInvert),
     Placement(size * 2, size * 2, p.cornerType, p.cornerTurn + 2, p.cornerInvert),
     Placement(0, size * 2, p.cornerType, p.cornerTurn + 3, p.cornerInvert)]
  }

  /** The next position clockwise in the same ring (the middle stays put). */
  function RingNext(k: int): (n: int)
    requires 0 <= k < 9
    ensures 0 <= n < 9
  {
    if k == 0 then 0 else if k == 4 then 1 else if k == 8 then 5 else k + 1
  }

  /** The cell that contains pixel `(px, py)` of the `3 size` by `3 size` image. */
  function CellAt(size: int, px: int, py: int): (k: int)
    requires 0 < size && 0 <= px < 3 * size && 0 <= py < 3 * size
    ensures 0 <= k < 9
  {
    var cx := if px < size then 0 else if px < 2 * size then 1 else 2;
    var cy := if py < size then 0 else if py < 2 * size then 1 else 2;
    [[5, 4, 8], [1, 0, 3], [6, 2, 7]][cx][cy]
  }

  /** Pixel `(px, py)` lies in the `size` by `size` cell of placement `pl`. */
  predicate InCell(pl: Placement, size: int, px: int, py: int)
  {
    InRect(px, py, pl.x, pl.y, size, size)
  }

  /** The nine origins are the nine cells `{0, size, 2 size}^2` of the source image,
      each used once: every pixel of the image lies in exactly one placement's
      cell, and every cell lies inside the image. */
  lemma PlanTilesImage(p: Params, size: int)
    requires size > 0
    ensures var plan := Plan(p, size);
      (forall k :: 0 <= k < 9 ==> plan[k].x in {0, size, 2 * size} && plan[k].y in {0, size, 2 * size}) &&
      (forall k :: 0 <= k < 9 ==> 0 <= plan[k].x && plan[k].x + size <= 3 * size &&
                                  0 <= plan[k].y && plan[k].y + size <= 3 * size) &&
      (forall j, k :: 0 <= j < k < 9 ==> (plan[j].x, plan[j].y) != (plan[k].x, plan[k].y)) &&
      (forall px, py :: 0 <= px < 3 * size && 0 <= py < 3 * size ==>
        InCell(plan[CellAt(size, px, py)], size, px, py) &&
        forall k :: 0 <= k < 9 && InCell(plan[k], size, px, py) ==> k == CellAt(size, px, py))
  {
  }

  /** The middle patch is one of the four middle shapes at turn 0; the four sides
      share the side shape and invert flag and the four corners the corner ones,
      and around each ring the turn goes up by one per position. */
  lemma PlanIsPinwheel(p: Params, size: int)
    requires WellFormed(p)
    ensures var plan := Plan(p, size);
      plan[0].patch in CenterPatchTypes && plan[0].turn == 0 && plan[0].invert == p.middleInvert &&
      (forall k :: 1 <= k <= 4 ==> plan[k].patch == p.sideType && plan[k].invert == p.sideInvert &&
                                   plan[k].turn == p.sideTurn + k - 1) &&
      (forall k :: 5 <= k <= 8 ==> plan[k].patch == p.cornerType && plan[k].invert == p.cornerInvert &&
                                   plan[k].turn == p.cornerTurn + k - 5) &&
      (forall k :: 0 <= k < 9 ==> 0 <= plan[k].patch < 16 && 0 <= plan[k].turn)
  {
    assert p.middleType in CenterPatchTypes;
  }

  /** Adding a quarter turn commutes with taking the turn modulo 4. */
  lemma QuarterTurnsWrap(t: int)
    ensures (t + 1) % 4 == (t % 4 + 1) % 4
  {
    if t % 4 < 3 {
      DivModUnique(t + 1, 4, t / 4, t % 4 + 1);
    } else {
      DivModUnique(t + 1, 4, t / 4 + 1, 0);
    }
  }

  /** Moving one position clockwise around a ring keeps the patch and its invert
      flag, adds a quarter turn (taken modulo 4, as `drawPatch` does), and moves the
      cell a quarter turn clockwise about the image centre. */
  lemma RingNextTurnsQuarter(p: Params, size: int, k: int)
    requires WellFormed(p) && 1 <= k < 9
    ensures var plan, n := Plan(p, size), RingNext(k);
      plan[n].patch == plan[k].patch && plan[n].invert == plan[k].invert &&
      plan[n].turn % 4 == (plan[k].turn % 4 + 1) % 4 &&
      plan[n].x == 2 * size - plan[k].y && plan[n].y == plan[k].x
  {
    var plan := Plan(p, size);
    QuarterTurnsWrap(plan[k].turn);
  }

  /** How `drawPatch` normalises its arguments: the patch and turn it uses, whether
      the patch is inverted, the colour of the cell and the colour of the shape. */
  datatype Style = Style(patch: int, turn: int, invert: bool, cellColor: Color, shapeColor: Color)

  /** `patch %= patchTypes.length; turn %= 4;` the invert flag flipped for a patch
      flagged `PATCH_INVERTED`; the cell cleared to the fill colour when inverted
      and to the background otherwise, and the shape filled with the other one. */
  function PatchStyle(patch: int, turn: int, invert: bool, fill: Color, background: Color): (s: Style)
    requires patch >= 0 && turn >= 0
    ensures IsPatch(s.patch) && 0 <= s.turn < 4
  {
    var pt := patch % PATCH_COUNT;
    var inv := if IsInverted(pt) then !invert else invert;
    Style(pt, turn % 4, inv, if inv then fill else background, if inv then background else fill)
  }

  /** The effective invert is the caller's flag exclusive-or "the patch is patch 15",
      and the cell and the shape always get the fill and the background colour,
      one each; flipping the caller's flag exchanges the two. */
  lemma StyleSwapsColours(patch: int, turn: int, invert: bool, fill: Color, background: Color)
    requires patch >= 0 && turn >= 0
    ensures var s := PatchStyle(patch, turn, invert, fill, background);
      s.patch == patch % 16 && s.turn == turn % 4 &&
      s.invert == (invert != (patch % 16 == 15)) &&
      multiset{s.cellColor, s.shapeColor} == multiset{fill, background} &&
      (s.cellColor == fill <==> s.invert || fill == background)
    ensures var s, t := PatchStyle(patch, turn, invert, fill, background), PatchStyle(patch, turn, !invert, fill, background);
      t.cellColor == s.shapeColor && t.shapeColor == s.cellColor
  {
    LastPatchIsInvertedFirst();
  }

  /** The colours `drawPatch` clears the nine cells of the plan to. */
  function CellColors(p: Params, size: int, fill: Color, background: Color): (cs: seq<Color>)
    requires WellFormed(p)
    ensures |cs| == 9
  {
    var plan := Plan(p, size);
    PlanIsPinwheel(p, size);
    seq(9, k requires 0 <= k < 9 => PatchStyle(plan[k].patch, plan[k].turn, plan[k].invert, fill, background).cellColor)
  }

  /** The shape handed to the graphics context: `g.translate(originX, originY)`,
      `g.rotate(turns * 90 degrees)`, the outline stroked in `stroke` when there is
      one, then filled in `color`. */
  datatype ShapeDraw = ShapeDraw(originX: int, originY: int, turns: nat, outline: seq<Point>,
                                 stroke: Option<Color>, color: Color)

  /** The shape `drawPatch` draws for a placement on a renderer whose patches were
      built for `size`: the polygon of the patch index modulo 16, at the centre of
      the cell, turned the turn modulo 4, filled in one of the two colours. */
  function Draw(pl: Placement, size: int, fill: Color, background: Color, stroke: Option<Color>): (d: ShapeDraw)
    requires pl.patch >= 0 && pl.turn >= 0
    ensures d.outline == Outline(size, pl.patch % 16) && d.turns == pl.turn % 4
    ensures d.originX == pl.x + Offset(size) && d.originY == pl.y + Offset(size)
    ensures d.stroke == stroke && d.color in {fill, background}
  {
    TablesWellFormed();
    var s := PatchStyle(pl.patch, pl.turn, pl.invert, fill, background);
    ShapeDraw(pl.x + Offset(size), pl.y + Offset(size), s.turn, Outline(size, s.patch), stroke, s.shapeColor)
  }

  /** Where vertex `j` of a drawn shape lands on the image. */
  function DeviceVertex(d: ShapeDraw, j: int): Point
    requires 0 <= j < |d.outline|
  {
    ToDevice(d.outline[j], d.originX, d.originY, d.turns)
  }

  /** Patch 15 without invert draws exactly what patch 0 draws inverted. */
  lemma Patch15IsInvertedPatch0(pl: Placement, size: int, fill: Color, background: Color, stroke: Option<Color>)
    requires pl.turn >= 0
    ensures Draw(pl.(patch := 15), size, fill, background, stroke) ==
            Draw(pl.(patch := 0, invert := !pl.invert), size, fill, background, stroke)
    ensures PatchStyle(15, pl.turn, pl.invert, fill, background).cellColor ==
            PatchStyle(0, pl.turn, !pl.invert, fill, background).cellColor
  {
    LastPatchIsInvertedFirst();
  }

  /** Every drawn vertex lies inside its own cell. */
  lemma DrawInsideCell(pl: Placement, size: int, fill: Color, background: Color, stroke: Option<Color>, j: int)
    requires size >= 0 && pl.patch >= 0 && pl.turn >= 0
    requires 0 <= j < |Draw(pl, size, fill, background, stroke).outline|
    ensures var d := DeviceVertex(Draw(pl, size, fill, background, stroke), j);
      pl.x <= d.x <= pl.x + size && pl.y <= d.y <= pl.y + size
  {
    var s := PatchStyle(pl.patch, pl.turn, pl.invert, fill, background);
    PatchInsideCell(size, s.patch, j, pl.x, pl.y, s.turn);
  }

  /** A quarter turn clockwise of the `3 size` by `3 size` source image about its
      centre. */
  function ImageQuarterTurn(q: Point, size: int): Point
  {
    Point(3 * size - q.y, q.x)
  }

  /** One more quarter turn, counted modulo 4, is one more `QuarterTurn`. */
  lemma NextTurn(q: Point, t: nat)
    requires t < 4
    ensures Turned(q, (t + 1) % 4) == QuarterTurn(Turned(q, t))
  {
    if t == 3 {
      FourTurnsIdentity(q);
    }
  }

  /** For an even size the offset is exactly half the size. */
  lemma EvenOffset(size: int)
    requires size % 2 == 0
    ensures 2 * Offset(size) == size
  {
    var h := size / 2;
    if size < 0 {
      DivModUnique(-size, 2, -h, 0);
    }
  }

  /** Pinwheel symmetry: for an even patch size, each side and corner patch is the
      previous one in its ring turned a quarter turn about the image centre, vertex
      for vertex. */
  lemma RingsAreQuarterTurnSymmetric(p: Params, size: int, fill: Color, background: Color,
                                     stroke: Option<Color>, k: int, j: int)
    requires WellFormed(p) && size % 2 == 0 && 1 <= k < 9
    requires 0 <= j < |Draw(Plan(p, size)[k], size, fill, background, stroke).outline|
    ensures var plan := Plan(p, size);
      var d, e := Draw(plan[k], size, fill, background, stroke), Draw(plan[RingNext(k)], size, fill, background, stroke);
      e.outline == d.outline &&
      DeviceVertex(e, j) == ImageQuarterTurn(DeviceVertex(d, j), size)
  {
    RingNextTurnsQuarter(p, size, k);
    var plan := Plan(p, size);
    var d := Draw(plan[k], size, fill, background, stroke);
    NextTurn(d.outline[j], d.turns);
    EvenOffset(size);
  }

  /** For a positive odd size the offset is half the size rounded down. */
  lemma OddOffset(size: int)
    requires size > 0 && size % 2 == 1
    ensures 2 * Offset(size) + 1 == size
  {
  }

  /** For a positive odd patch size the pinwheel is off by one pixel: the next
      patch in a ring has the same outline, but each of its vertices lies one
      pixel to the left of the previous patch's vertex turned about the image
      centre, because the origin `x + size / 2` is truncated. */
  lemma RingsOffByOneForOddSize(p: Params, size: int, fill: Color, background: Color,
                                stroke: Option<Color>, k: int, j: int)
    requires WellFormed(p) && size > 0 && size % 2 == 1 && 1 <= k < 9
    requires 0 <= j < |Draw(Plan(p, size)[k], size, fill, background, stroke).outline|
    ensures var plan := Plan(p, size);
      var d, e := Draw(plan[k], size, fill, background, stroke), Draw(plan[RingNext(k)], size, fill, background, stroke);
      var turned := ImageQuarterTurn(DeviceVertex(d, j), size);
      e.outline == d.outline &&
      DeviceVertex(e, j) == Point(turned.x - 1, turned.y)
  {
    RingNextTurnsQuarter(p, size, k);
    var plan := Plan(p, size);
    var d := Draw(plan[k], size, fill, background, stroke);
    NextTurn(d.outline[j], d.turns);
    OddOffset(size);
  }
}
