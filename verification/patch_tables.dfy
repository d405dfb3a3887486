/** The fixed vocabulary of the 9-block identicon: sixteen polygon patches given
    as vertex indices on a 5 by 5 grid (numbered 0 to 24 from the top-left corner,
    left to right, then top to bottom), the per-patch flags, and the four patches
    allowed in the middle of the quilt. */
module PatchTables {

  const PATCH_CELLS: int := 4
  const PATCH_GRIDS: int := PATCH_CELLS + 1

  const PATCH_SYMMETRIC: bv8 := 1
  const PATCH_INVERTED: bv8 := 2

  const Patch0: seq<int> := [0, 4, 24, 20, 0]
  const Patch1: seq<int> := [0, 4, 20, 0]
  const Patch2: seq<int> := [2, 24, 20, 2]
  const Patch3: seq<int> := [0, 2, 20, 22, 0]
  const Patch4: seq<int> := [2, 14, 22, 10, 2]
  const Patch5: seq<int> := [0, 14, 24, 22, 0]
  const Patch6: seq<int> := [2, 24, 22, 13, 11, 22, 20, 2]
  const Patch7: seq<int> := [0, 14, 22, 0]
  const Patch8: seq<int> := [6, 8, 18, 16, 6]
  const Patch9: seq<int> := [4, 20, 10, 12, 2, 4]
  const Patch10: seq<int> := [0, 2, 12, 10, 0]
  const Patch11: seq<int> := [10, 14, 22, 10]
  const Patch12: seq<int> := [20, 12, 24, 20]
  const Patch13: seq<int> := [10, 2, 12, 10]
  const Patch14: seq<int> := [0, 2, 10, 0]

  /** The vertex lists of the sixteen patches; the last entry reuses patch 0. */
  const PatchTypes: seq<seq<int>> := [Patch0, Patch1, Patch2, Patch3, Patch4,
    Patch5, Patch6, Patch7, Patch8, Patch9, Patch10, Patch11, Patch12, Patch13,
    Patch14, Patch0]

  const PatchFlags: seq<bv8> := [PATCH_SYMMETRIC, 0, 0, 0, PATCH_SYMMETRIC, 0, 0, 0,
    PATCH_SYMMETRIC, 0, 0, 0, 0, 0, 0, PATCH_SYMMETRIC + PATCH_INVERTED]

  const CenterPatchTypes: seq<int> := [0, 4, 8, 15]

  const PATCH_COUNT: int := |PatchTypes|

  predicate IsPatch(i: int)
  {
    0 <= i < 16
  }

  /** `(patchFlags[i] & PATCH_INVERTED) != 0` */
  predicate IsInverted(i: int)
    requires IsPatch(i)
  {
    PatchFlags[i] & PATCH_INVERTED != 0
  }

  /** `(patchFlags[i] & PATCH_SYMMETRIC) != 0` */
  predicate IsSymmetric(i: int)
    requires IsPatch(i)
  {
    PatchFlags[i] & PATCH_SYMMETRIC != 0
  }

  /** The grid point a quarter turn clockwise (y pointing down) about the grid's
      centre: column `v % 5`, row `v / 5` go to column `4 - row`, row `column`. */
  function QuarterTurnIndex(v: int): (r: int)
    requires 0 <= v < PATCH_GRIDS * PATCH_GRIDS
    ensures 0 <= r < PATCH_GRIDS * PATCH_GRIDS
  {
    (PATCH_GRIDS - 1 - v / PATCH_GRIDS) + PATCH_GRIDS * (v % PATCH_GRIDS)
  }

  /** The library has sixteen patches and sixteen flags, and every vertex index
      is a point of the 5 by 5 grid. */
  lemma TablesWellFormed()
    ensures PATCH_COUNT == |PatchFlags| == 16
    ensures forall i, j :: IsPatch(i) && 0 <= j < |PatchTypes[i]| ==>
      0 <= PatchTypes[i][j] < PATCH_GRIDS * PATCH_GRIDS
    ensures forall i :: IsPatch(i) ==> |PatchTypes[i]| >= 4
  {
    forall i, j | IsPatch(i) && 0 <= j < |PatchTypes[i]|
      ensures 0 <= PatchTypes[i][j] < PATCH_GRIDS * PATCH_GRIDS
    {
      assert PatchTypes[i] in PatchTypes;
    }
  }

  /** Only the last patch carries the inverted flag, and it reuses the vertices of
      patch 0: patch 15 is patch 0 with fill and background exchanged. */
  lemma LastPatchIsInvertedFirst()
    ensures PatchTypes[15] == PatchTypes[0]
    ensures forall i :: IsPatch(i) ==> (IsInverted(i) <==> i == 15)
  {
  }

  /** The middle patches are exactly the symmetric ones. */
  lemma CenterPatchesAreSymmetric()
    ensures forall i :: IsPatch(i) ==> (IsSymmetric(i) <==> i in CenterPatchTypes)
  {
  }

  /** The vertex list of patch `i` with every vertex turned a quarter turn. */
  function TurnedVertices(i: int): (r: seq<int>)
    requires IsPatch(i)
    ensures |r| == |PatchTypes[i]|
  {
    TablesWellFormed();
    seq(|PatchTypes[i]|, j requires 0 <= j < |PatchTypes[i]| => QuarterTurnIndex(PatchTypes[i][j]))
  }

  /** A symmetric patch has the same vertex set after a quarter turn: every
      turned vertex is a vertex, and every vertex is a turned vertex. */
  lemma SymmetricPatchesTurnInPlace(i: int)
    requires IsPatch(i) && IsSymmetric(i)
    ensures forall j :: 0 <= j < |PatchTypes[i]| ==> TurnedVertices(i)[j] in PatchTypes[i]
    ensures forall j :: 0 <= j < |PatchTypes[i]| ==> PatchTypes[i][j] in TurnedVertices(i)
  {
    CenterPatchesAreSymmetric();
    if i == 0 || i == 15 {
      assert TurnedVertices(i) == [4, 24, 20, 0, 4];
    } else if i == 4 {
      assert TurnedVertices(i) == [14, 22, 10, 2, 14];
    } else {
      assert TurnedVertices(i) == [8, 18, 16, 6, 8];
    }
  }
}
