/** Pixel geometry of the patches: the grid points scaled to a patch size and
    centred by `patchOffset` (what `setPatchSize` builds), and the quarter turns
    and translation `drawPatch` applies before filling a patch. */
module PatchGeometry {
  import opened JavaInt
  import opened PatchTables

  datatype Point = Point(x: int, y: int)

  /** `patchSize / PATCH_CELLS` */
  function Scale(size: int): int
  {
    Div(size, PATCH_CELLS)
  }

  /** `patchSize / 2` */
  function Offset(size: int): int
  {
    Div(size, 2)
  }

  /** Grid point `v` at pixel scale: `(v % PATCH_GRIDS * scale - offset,
      v / PATCH_GRIDS * scale - offset)`. */
  function GridPoint(v: int, scale: int, offset: int): Point
    requires 0 <= v
  {
    Point(v % PATCH_GRIDS * scale - offset, v / PATCH_GRIDS * scale - offset)
  }

  /** The polygon `setPatchSize(size)` builds for patch `i`: one point per entry
      of its vertex list, in order. */
  function Outline(size: int, i: int): (r: seq<Point>)
    requires IsPatch(i)
    ensures |r| == |PatchTypes[i]|
  {
    TablesWellFormed();
    seq(|PatchTypes[i]|, j requires 0 <= j < |PatchTypes[i]| =>
      GridPoint(PatchTypes[i][j], Scale(size), Offset(size)))
  }

  /** Every vertex of an outline is a grid point `(column * scale - offset,
      row * scale - offset)` with column and row in 0..4, so for a non-negative
      size every coordinate lies in `[-offset, 4 * scale - offset]`, inside the
      patch square `[-offset, size - offset]`. */
  lemma OutlineBounds(size: int, i: int, j: int)
    requires size >= 0 && IsPatch(i) && 0 <= j < |PatchTypes[i]|
    ensures var p, s, o := Outline(size, i)[j], Scale(size), Offset(size);
      -o <= p.x <= 4 * s - o && -o <= p.y <= 4 * s - o && 4 * s - o <= size - o
  {
    TablesWellFormed();
    var v, s := PatchTypes[i][j], Scale(size);
    QuarterAndHalf(size);
    MulLe(s, v % PATCH_GRIDS, 4);
    MulLe(s, v / PATCH_GRIDS, 4);
    assert s * 4 == 4 * s;
  }

  /** A grid coordinate `k * scale - offset` with `k` in 0..4 fits in an `int`. */
  lemma CoordinateFitsInt(size: Int32, k: int)
    requires 0 <= k <= 4
    ensures -0x8000_0000 <= k * Scale(size) - Offset(size) < 0x8000_0000
  {
    var s, o := Scale(size), Offset(size);
    QuarterAndHalf(size);
    if size >= 0 {
      MulLe(s, k, 4);
      assert 0 <= k * s <= 4 * s <= size;
    } else {
      MulLe(-s, k, 4);
      assert size <= 4 * s <= k * s <= 0;
    }
  }

  /** `setPatchSize` computes every coordinate without `int` overflow, whatever
      `int` size it is given. */
  lemma OutlineFitsInt(size: Int32, i: int, j: int)
    requires IsPatch(i) && 0 <= j < |PatchTypes[i]|
    ensures var p := Outline(size, i)[j]; -0x8000_0000 <= p.x < 0x8000_0000 && -0x8000_0000 <= p.y < 0x8000_0000
  {
    TablesWellFormed();
    var v := PatchTypes[i][j];
    assert Outline(size, i)[j] == GridPoint(v, Scale(size), Offset(size));
    CoordinateFitsInt(size, v % PATCH_GRIDS);
    CoordinateFitsInt(size, v / PATCH_GRIDS);
  }

  /** `g.rotate(Math.toRadians(90))` on a point: `(x, y)` goes to `(-y, x)`. */
  function QuarterTurn(p: Point): Point
  {
    Point(-p.y, p.x)
  }

  /** The point after `turns` quarter turns. */
  function Turned(p: Point, turns: nat): Point
  {
    if turns == 0 then p else QuarterTurn(Turned(p, turns - 1))
  }

  /** Where a patch point lands on the image after `g.translate(tx, ty)` followed by
      `turns` quarter turns. */
  function ToDevice(p: Point, tx: int, ty: int, turns: nat): Point
  {
    var q := Turned(p, turns);
    Point(tx + q.x, ty + q.y)
  }

  /** Four quarter turns are the identity. */
  lemma FourTurnsIdentity(p: Point)
    ensures Turned(p, 4) == p
  {
    assert Turned(p, 1) == Point(-p.y, p.x);
    assert Turned(p, 2) == Point(-p.x, -p.y);
    assert Turned(p, 3) == Point(p.y, -p.x);
  }

  /** Quarter turns keep a point in the square `[-h, h]^2` centred at the origin. */
  lemma {:induction false} TurnedStaysInSquare(p: Point, h: int, turns: nat)
    requires -h <= p.x <= h && -h <= p.y <= h
    ensures var q := Turned(p, turns); -h <= q.x <= h && -h <= q.y <= h
  {
    if turns > 0 {
      TurnedStaysInSquare(p, h, turns - 1);
    }
  }

  /** Translated to the centre of the cell at `(x, y)` and turned any number of
      quarter turns, every vertex of a patch stays inside the closed cell
      `[x, x + size] x [y, y + size]`. This is a statement about the vertices only:
      an outline along the edge `x + size` is stroked by a pen that can cover the
      first column of the neighbouring cell, and rasterisation is not modelled. */
  lemma PatchInsideCell(size: int, i: int, j: int, x: int, y: int, turns: nat)
    requires size >= 0 && IsPatch(i) && 0 <= j < |PatchTypes[i]|
    ensures var o := Offset(size);
      var d := ToDevice(Outline(size, i)[j], x + o, y + o, turns);
      x <= d.x <= x + size && y <= d.y <= y + size
  {
    OutlineBounds(size, i, j);
    QuarterAndHalf(size);
    TurnedStaysInSquare(Outline(size, i)[j], Offset(size), turns);
  }

  /** The grid is centred on the origin when the offset is two grid steps. */
  predicate Centred(size: int)
  {
    Offset(size) == 2 * Scale(size)
  }

  /** For a non-negative size the grid is centred exactly when the size is 0 or 1
      modulo 4: `size / 2` is then twice `size / 4`. */
  lemma {:induction false} CentredSizes(size: int)
    requires size >= 0
    ensures Centred(size) <==> size % 4 in {0, 1}
  {
    var q, r := size / 4, size % 4;
    DivModUnique(size, 2, 2 * q + r / 2, r % 2);
  }

  /** On a centred grid a quarter turn of a grid point is the grid point of the
      turned index. */
  lemma GridPointTurn(v: int, size: int)
    requires 0 <= v < PATCH_GRIDS * PATCH_GRIDS && Centred(size)
    ensures QuarterTurn(GridPoint(v, Scale(size), Offset(size))) ==
      GridPoint(QuarterTurnIndex(v), Scale(size), Offset(size))
  {
    var k := Scale(size);
    var c, r := v % PATCH_GRIDS, v / PATCH_GRIDS;
    var t := QuarterTurnIndex(v);
    DivModUnique(t, PATCH_GRIDS, c, 4 - r);
    assert (4 - r) * k - 2 * k == 2 * k - r * k;
  }

  lemma TurnedVertexInOutline(size: int, i: int, j: int)
    requires Centred(size) && IsPatch(i) && IsSymmetric(i) && 0 <= j < |PatchTypes[i]|
    ensures QuarterTurn(Outline(size, i)[j]) in Outline(size, i)
  {
    TablesWellFormed();
    SymmetricPatchesTurnInPlace(i);
    var ps := PatchTypes[i];
    GridPointTurn(ps[j], size);
    var t := QuarterTurnIndex(ps[j]);
    assert TurnedVertices(i)[j] == t;
    assert t in ps;
    var j' :| 0 <= j' < |ps| && ps[j'] == t;
    assert Outline(size, i)[j'] == QuarterTurn(Outline(size, i)[j]);
  }

  lemma OutlineVertexIsTurned(size: int, i: int, j: int)
    requires Centred(size) && IsPatch(i) && IsSymmetric(i) && 0 <= j < |PatchTypes[i]|
    ensures exists j' :: 0 <= j' < |PatchTypes[i]| && QuarterTurn(Outline(size, i)[j']) == Outline(size, i)[j]
  {
    TablesWellFormed();
    SymmetricPatchesTurnInPlace(i);
    var ps := PatchTypes[i];
    assert ps[j] in TurnedVertices(i);
    var j' :| 0 <= j' < |ps| && TurnedVertices(i)[j'] == ps[j];
    GridPointTurn(ps[j'], size);
    assert QuarterTurn(Outline(size, i)[j']) == Outline(size, i)[j];
  }

  /** On a centred grid a symmetric patch has the same vertex set after a quarter
      turn, so it looks the same at every turn. */
  lemma SymmetricOutlineTurnsInPlace(size: int, i: int)
    requires Centred(size) && IsPatch(i) && IsSymmetric(i)
    ensures (set p | p in Outline(size, i) :: QuarterTurn(p)) == (set p | p in Outline(size, i))
  {
    var outline := Outline(size, i);
    forall q | q in outline
      ensures QuarterTurn(q) in outline
    {
      var j :| 0 <= j < |outline| && outline[j] == q;
      TurnedVertexInOutline(size, i, j);
    }
    forall q | q in outline
      ensures q in (set p | p in outline :: QuarterTurn(p))
    {
      var j :| 0 <= j < |outline| && outline[j] == q;
      OutlineVertexIsTurned(size, i, j);
      var j' :| 0 <= j' < |outline| && QuarterTurn(outline[j']) == q;
      assert outline[j'] in outline;
    }
  }

  /** For a non-negative size that is 2 or 3 modulo 4 the grid is off centre:
      with size 22 the square patch 0 moves by two pixels under a quarter turn. */
  lemma OffCentreForSize22()
    ensures Outline(22, 0)[0] == Point(-11, -11)
    ensures QuarterTurn(Outline(22, 0)[0]) == Point(11, -11)
    ensures Point(11, -11) !in Outline(22, 0)
  {
    assert Scale(22) == 5 && Offset(22) == 11;
    assert Outline(22, 0) == [Point(-11, -11), Point(9, -11), Point(9, 9), Point(-11, 9), Point(-11, -11)];
  }
}
