# 9-block identicon renderer, modelled in Dafny

This project models the parameter logic of the 9-block identicon renderer of
`donpark/identicon`, `NineBlockIdenticonRenderer`. An identicon code is a 32-bit
`int`. The renderer reads it by mask and shift into:

- a middle shape, with an invert flag;
- a side shape and a corner shape, each with an invert flag and a starting turn;
- a fill colour.

It then draws nine square patches on a `3 patchSize` by `3 patchSize` source
image: the middle, the four sides clockwise from the top, and the four corners
clockwise from the top left. Each side and each corner is turned one quarter turn
further than the one before it.

The model is arranged like the source:

- `PatchTables`: the vertex tables `patchTypes`, `patchFlags` and `centerPatchTypes`.
- `PatchGeometry`: the polygons `setPatchSize` builds, and the translate-and-turn `drawPatch` applies.
- `Colors`: `java.awt.Color` as three 8-bit channels, `getRGB`, `getComplementaryColor` and the colour-distance test.
- `CodeDecoder`: the decoding of the code (a pure function), with an encoding that inverts it.
- `Quilt`: the nine `drawPatch` calls as data, and how `drawPatch` normalises each one.
- `Canvas`: the `TYPE_INT_RGB` image as an `array2` of colours, with `clearRect` as an in-place fill.
- `QuiltImage`: the source image and shapes that the nine calls leave behind.
- `NineBlock`: the renderer class. Its fields are `patchSize`, `patchOffset`, `patchShapes` and `backgroundColor`. It has `setPatchSize` (a nested loop), `drawPatch`, `renderQuilt` and the two `render` entry points.

Java's `int code` is modelled by its bit pattern, a `Word` in `[0, 2^32)`. Every
field is `(code >> s) & m` with a mask no wider than `32 - s`. For such a field the
arithmetic shift of a negative `int` gives the same bits as `code / 2^s % (m + 1)`
on the pattern. `render(BigInteger, int)` keeps `code.intValue()`, the low 32 bits,
which is `IntValue`.

The shift comment above the decoding disagrees with the code in two places, and a
Javadoc in a third. The model follows the code:

- The comment gives the side turn as bit 15 ("corner turns"). The code reads
  `(code >> 15) & 0x3`, which is bits 15-16. Bit 16 is therefore both the high bit
  of the side turn and the low bit of blue; `DecodeWellFormed` states this coupling.
- The comment gives green as bits 21-26. The code reads five bits, 21-25. No field
  reads bit 26.
- The Javadoc of `render(int, int)` says the returned image is 3 times the patch
  size on each side. The code returns a `size` by `size` target image; the model's
  `targetSize` is `size`.

Patches are centred by `patchOffset = patchSize / 2`, but the grid step is
`patchSize / 4`. The grid is centred on the origin exactly when the offset is two
grid steps, which for a non-negative size means a size of 0 or 1 modulo 4
(`CentredSizes`). On a centred grid a symmetric patch turns in place
(`SymmetricOutlineTurnsInPlace`). At sizes of 2 or 3 modulo 4 the grid is off
centre; at size 22, for example, the square patch does not turn in place
(`OffCentreForSize22`).

The origin `x + patchSize / 2` is truncated too. For an even patch size each
side or corner patch is the previous one in its ring turned about the image
centre (`RingsAreQuarterTurnSymmetric`). For an odd patch size the turned patch
lands one pixel to the right of where the program draws the next one
(`RingsOffByOneForOddSize`).

## Model

| member | source | states |
|---|---|---|
| PatchTables.TablesWellFormed | core/src/main/java/com/docuverse/identicon/NineBlockIdenticonRenderer.java:39-75 | there are 16 vertex lists and 16 flags; every vertex index is a point of the 5 by 5 grid (0..24); every polygon has at least 4 vertices |
| PatchTables.LastPatchIsInvertedFirst | core/src/main/java/com/docuverse/identicon/NineBlockIdenticonRenderer.java:69-75 | entry 15 reuses patch 0's vertices, and exactly entry 15 carries `PATCH_INVERTED` |
| PatchTables.CenterPatchesAreSymmetric | core/src/main/java/com/docuverse/identicon/NineBlockIdenticonRenderer.java:73-77 | the patches flagged `PATCH_SYMMETRIC` are exactly those of `centerPatchTypes` (0, 4, 8, 15) |
| PatchTables.SymmetricPatchesTurnInPlace | core/src/main/java/com/docuverse/identicon/NineBlockIdenticonRenderer.java:39-75 | for a symmetric patch, turning every grid vertex a quarter turn gives back the same vertex set, in both directions |
| JavaInt.IntValue | core/src/main/java/com/docuverse/identicon/NineBlockIdenticonRenderer.java:143-145 | `code.intValue()`: the result agrees with the big integer modulo 2^32 and is the integer itself when it already fits in 32 bits |
| JavaInt.IntValueOnlyLow32 | core/src/main/java/com/docuverse/identicon/NineBlockIdenticonRenderer.java:143-145 | two big integers have the same `intValue()` exactly when they agree modulo 2^32 |
| JavaInt.IntValueIgnoresHighBits | core/src/main/java/com/docuverse/identicon/NineBlockIdenticonRenderer.java:143-145 | adding any multiple of 2^32 to the code leaves `intValue()` unchanged |
| JavaInt.QuarterAndHalf | core/src/main/java/com/docuverse/identicon/NineBlockIdenticonRenderer.java:118-120 | with Java's truncating division, `4 * (size / 4) <= 2 * (size / 2) <= size` for a non-negative size, and the mirror image for a negative one |
| CodeDecoder.Decode | core/src/main/java/com/docuverse/identicon/NineBlockIdenticonRenderer.java:183-193 | decoding is total on all 2^32 codes; the middle shape is in {0, 4, 8, 15}, the shapes in 0..15, the turns in 0..3 and the colour fields in 0..31 |
| CodeDecoder.FillColor | core/src/main/java/com/docuverse/identicon/NineBlockIdenticonRenderer.java:198 | each channel is its 5-bit field shifted left by 3: a multiple of 8, at most 248, and the field is recovered by dividing by 8 |
| CodeDecoder.DecodeWellFormed | core/src/main/java/com/docuverse/identicon/NineBlockIdenticonRenderer.java:183-193 | every code decodes to well-formed parameters; the side turn is 2 or 3 exactly when blue is odd, since both read bit 16 |
| CodeDecoder.EncodeLowFields | core/src/main/java/com/docuverse/identicon/NineBlockIdenticonRenderer.java:183-187 | the encoding places the middle, corner and corner-turn fields at the bits the decoder reads them from |
| CodeDecoder.EncodeHighFields | core/src/main/java/com/docuverse/identicon/NineBlockIdenticonRenderer.java:188-193 | the encoding places the side, side-turn and colour fields at the bits the decoder reads them from |
| CodeDecoder.DecodeEncode | core/src/main/java/com/docuverse/identicon/NineBlockIdenticonRenderer.java:183-193 | decoding the encoding of well-formed parameters gives them back |
| CodeDecoder.EncodeDecode | core/src/main/java/com/docuverse/identicon/NineBlockIdenticonRenderer.java:183-193 | encoding the decoded parameters gives back the code with bit 26 cleared: every other bit is read by some field |
| CodeDecoder.DecodeIgnoresBit26 | core/src/main/java/com/docuverse/identicon/NineBlockIdenticonRenderer.java:191-193 | clearing or flipping bit 26 changes no decoded field |
| CodeDecoder.DecodeSameIffSameBesideBit26 | core/src/main/java/com/docuverse/identicon/NineBlockIdenticonRenderer.java:183-193 | two codes decode alike exactly when they differ at most in bit 26 |
| Colors.FromRgbOfRgb | core/src/main/java/com/docuverse/identicon/NineBlockIdenticonRenderer.java:313-315 | `new Color(c.getRGB())` is `c` |
| Colors.Complementary | core/src/main/java/com/docuverse/identicon/NineBlockIdenticonRenderer.java:313-315 | `new Color(color.getRGB() ^ 0x00FFFFFF)`, defined on the packed form; `ComplementaryIsChannelwise` and `ComplementaryInvolutive` state what it is |
| Colors.XorAllOnes | core/src/main/java/com/docuverse/identicon/NineBlockIdenticonRenderer.java:314 | exclusive-or with `0xFFFFFF` on 24 bits is subtraction from `0xFFFFFF` |
| Colors.ComplementaryIsChannelwise | core/src/main/java/com/docuverse/identicon/NineBlockIdenticonRenderer.java:313-315 | the complementary colour is `255 - c` in each channel |
| Colors.ComplementaryInvolutive | core/src/main/java/com/docuverse/identicon/NineBlockIdenticonRenderer.java:313-315 | complementing twice gives the colour back |
| Colors.DistanceSquared | core/src/main/java/com/docuverse/identicon/NineBlockIdenticonRenderer.java:300-305 | the squared RGB distance is at most `3 * 255^2` |
| Colors.DistanceBelow32 | core/src/main/java/com/docuverse/identicon/NineBlockIdenticonRenderer.java:300-305 | a non-negative square root of the squared distance is below 32 exactly when the squared distance is below 1024 |
| Colors.StrokeWhenClose | core/src/main/java/com/docuverse/identicon/NineBlockIdenticonRenderer.java:203-205 | there is a stroke colour exactly when the squared distance is below 1024, and it is then the channel-wise complement of the fill |
| Colors.StrokeColor | core/src/main/java/com/docuverse/identicon/NineBlockIdenticonRenderer.java:203-205 | the stroke decision of `renderQuilt`: the complement of the fill when the colour distance is below 32, else none; `StrokeWhenClose` states it |
| Colors.StrokeOnWhiteOnlyForPale | core/src/main/java/com/docuverse/identicon/NineBlockIdenticonRenderer.java:203-205 | on the default white background only fills with every channel at least 224 get a stroke |
| Colors.StrokeContrastsWithFillOnWhite | core/src/main/java/com/docuverse/identicon/NineBlockIdenticonRenderer.java:203-205 | on white the stroke is at least 193 darker than the fill in every channel |
| PatchGeometry.Scale | core/src/main/java/com/docuverse/identicon/NineBlockIdenticonRenderer.java:120 | `patchSize / PATCH_CELLS` with Java's truncating division; `QuarterAndHalf` bounds it |
| PatchGeometry.Offset | core/src/main/java/com/docuverse/identicon/NineBlockIdenticonRenderer.java:118 | `patchSize / 2` with Java's truncating division; `QuarterAndHalf` bounds it |
| PatchGeometry.GridPoint | core/src/main/java/com/docuverse/identicon/NineBlockIdenticonRenderer.java:126-128 | grid index `v` at pixel scale, `(v % 5 * scale - offset, v / 5 * scale - offset)`; `OutlineBounds` and `GridPointTurn` state its range and its turns |
| PatchGeometry.Outline | core/src/main/java/com/docuverse/identicon/NineBlockIdenticonRenderer.java:122-131 | polygon `i` has one vertex per entry of `patchTypes[i]` |
| PatchGeometry.OutlineBounds | core/src/main/java/com/docuverse/identicon/NineBlockIdenticonRenderer.java:125-129 | for a non-negative size every coordinate lies in `[-offset, 4 * scale - offset]`, inside `[-offset, size - offset]` |
| PatchGeometry.CoordinateFitsInt | core/src/main/java/com/docuverse/identicon/NineBlockIdenticonRenderer.java:127-128 | `k * scale - offset` with `k` in 0..4 fits in an `int` for every `int` size |
| PatchGeometry.OutlineFitsInt | core/src/main/java/com/docuverse/identicon/NineBlockIdenticonRenderer.java:125-129 | `setPatchSize` computes every vertex without `int` overflow, whatever the size |
| PatchGeometry.QuarterTurn | core/src/main/java/com/docuverse/identicon/NineBlockIdenticonRenderer.java:275 | `g.rotate` by 90 degrees on a point, `(x, y) -> (-y, x)`; `FourTurnsIdentity` states its order |
| PatchGeometry.ToDevice | core/src/main/java/com/docuverse/identicon/NineBlockIdenticonRenderer.java:274-275 | a patch point after `g.translate` and `turn` quarter turns; `PatchInsideCell` states where it lands |
| PatchGeometry.FourTurnsIdentity | core/src/main/java/com/docuverse/identicon/NineBlockIdenticonRenderer.java:274-275 | four quarter turns are the identity |
| PatchGeometry.TurnedStaysInSquare | core/src/main/java/com/docuverse/identicon/NineBlockIdenticonRenderer.java:274-275 | quarter turns keep a point inside a square centred on the origin |
| PatchGeometry.PatchInsideCell | core/src/main/java/com/docuverse/identicon/NineBlockIdenticonRenderer.java:273-287 | after the translate to the cell centre and any number of turns, every vertex lies inside its own cell |
| PatchGeometry.GridPointTurn | core/src/main/java/com/docuverse/identicon/NineBlockIdenticonRenderer.java:125-129 | on a centred grid, turning a scaled grid point is scaling the turned grid index |
| PatchGeometry.TurnedVertexInOutline | core/src/main/java/com/docuverse/identicon/NineBlockIdenticonRenderer.java:122-131 | on a centred grid, each turned vertex of a symmetric polygon is one of its vertices |
| PatchGeometry.OutlineVertexIsTurned | core/src/main/java/com/docuverse/identicon/NineBlockIdenticonRenderer.java:122-131 | on a centred grid, each vertex of a symmetric polygon is the turn of one of its vertices |
| PatchGeometry.SymmetricOutlineTurnsInPlace | core/src/main/java/com/docuverse/identicon/NineBlockIdenticonRenderer.java:116-133 | on a centred grid, a symmetric polygon has the same vertex set after a quarter turn |
| PatchGeometry.OffCentreForSize22 | core/src/main/java/com/docuverse/identicon/NineBlockIdenticonRenderer.java:116-133 | at size 22 (2 modulo 4) the square patch is not centred: a turned corner is no longer a vertex |
| PatchGeometry.CentredSizes | core/src/main/java/com/docuverse/identicon/NineBlockIdenticonRenderer.java:118-120 | for a non-negative size the grid is centred (`size / 2 == 2 * (size / 4)`) exactly when the size is 0 or 1 modulo 4 |
| Canvas.NewImage | core/src/main/java/com/docuverse/identicon/NineBlockIdenticonRenderer.java:211-213 | a non-positive width or height is an `IllegalArgumentException`, and a pixel count of `Integer.MAX_VALUE` or more an exception too; otherwise a fresh image of that size, all black |
| Canvas.Cleared | core/src/main/java/com/docuverse/identicon/NineBlockIdenticonRenderer.java:269 | the pixels after `clearRect`: the rectangle set to the colour, every other pixel kept; `ClearRect` is proved against it |
| Canvas.ClearRect | core/src/main/java/com/docuverse/identicon/NineBlockIdenticonRenderer.java:268-269 | exactly the pixels of the rectangle that lie on the image take the background colour; every other pixel is unchanged |
| Quilt.Plan | core/src/main/java/com/docuverse/identicon/NineBlockIdenticonRenderer.java:216-238 | the arguments of the nine `drawPatch` calls in call order, nine of them; `PlanTilesImage`, `PlanIsPinwheel` and `RingNextTurnsQuarter` state what they are |
| Quilt.PlanTilesImage | core/src/main/java/com/docuverse/identicon/NineBlockIdenticonRenderer.java:211-238 | the nine origins are the cells `{0, p, 2p}^2`, each used once and inside the `3p` image; every pixel lies in exactly one cell |
| Quilt.PlanIsPinwheel | core/src/main/java/com/docuverse/identicon/NineBlockIdenticonRenderer.java:216-238 | the middle has turn 0 and a centre shape; the sides get `sideTurn` to `sideTurn + 3` and the corners `cornerTurn` to `cornerTurn + 3`, with their own shape and invert flag |
| Quilt.RingNextTurnsQuarter | core/src/main/java/com/docuverse/identicon/NineBlockIdenticonRenderer.java:220-238 | the next position clockwise in a ring has the same shape and invert flag and one more quarter turn modulo 4, and its cell is the previous cell turned about the image centre |
| Quilt.PatchStyle | core/src/main/java/com/docuverse/identicon/NineBlockIdenticonRenderer.java:262-269 | the normalised patch is a valid index and the normalised turn is in 0..3 |
| Quilt.StyleSwapsColours | core/src/main/java/com/docuverse/identicon/NineBlockIdenticonRenderer.java:262-286 | patch mod 16 and turn mod 4; the effective invert is the flag exclusive-or "patch 15"; cell and shape colour are fill and background, one each, and flipping the flag swaps them |
| Quilt.Patch15IsInvertedPatch0 | core/src/main/java/com/docuverse/identicon/NineBlockIdenticonRenderer.java:262-287 | patch 15 draws exactly what patch 0 draws with the invert flag flipped |
| Quilt.Draw | core/src/main/java/com/docuverse/identicon/NineBlockIdenticonRenderer.java:273-287 | the shape `drawPatch` hands to the graphics context: the polygon of the patch index modulo 16, at the cell centre, turned the turn modulo 4, with the given stroke, filled in fill or background |
| Quilt.DrawInsideCell | core/src/main/java/com/docuverse/identicon/NineBlockIdenticonRenderer.java:273-287 | every vertex of a drawn shape lies inside its cell |
| Quilt.RingsAreQuarterTurnSymmetric | core/src/main/java/com/docuverse/identicon/NineBlockIdenticonRenderer.java:220-238 | for an even patch size, each side or corner patch is the previous one in its ring turned about the image centre, vertex for vertex |
| Quilt.RingsOffByOneForOddSize | core/src/main/java/com/docuverse/identicon/NineBlockIdenticonRenderer.java:220-238 | for a positive odd patch size, each side or corner patch has the previous one's outline, and every vertex lies exactly one pixel left of the previous patch's vertex turned about the image centre |
| QuiltImage.QuiltPixels | core/src/main/java/com/docuverse/identicon/NineBlockIdenticonRenderer.java:211-238 | the source image is `3 patchSize` pixels square |
| QuiltImage.QuiltShapes | core/src/main/java/com/docuverse/identicon/NineBlockIdenticonRenderer.java:216-238 | nine shapes are filled |
| QuiltImage.PaintStep | core/src/main/java/com/docuverse/identicon/NineBlockIdenticonRenderer.java:267-269 | clearing one more cell keeps the colours of the cells cleared before it |
| QuiltImage.PaintFirst | core/src/main/java/com/docuverse/identicon/NineBlockIdenticonRenderer.java:216-238 | after the first `n` calls, each of their cells holds its own colour |
| QuiltImage.QuiltColours | core/src/main/java/com/docuverse/identicon/NineBlockIdenticonRenderer.java:216-238 | every source pixel holds the colour of the one cell it lies in: the fill when that patch is effectively inverted, else the background; every pixel is cleared by exactly one `clearRect` call |
| NineBlock.NineBlockIdenticonRenderer.constructor | core/src/main/java/com/docuverse/identicon/NineBlockIdenticonRenderer.java:87-95 | the renderer starts with patch size 20, a white background and the 16 polygons built for size 20 |
| NineBlock.NineBlockIdenticonRenderer.SetPatchSize | core/src/main/java/com/docuverse/identicon/NineBlockIdenticonRenderer.java:116-133 | sets the patch size and offset and leaves exactly 16 fresh polygons, polygon `i` being the scaled vertex list of `patchTypes[i]` |
| NineBlock.NineBlockIdenticonRenderer.SetBackgroundColor | core/src/main/java/com/docuverse/identicon/NineBlockIdenticonRenderer.java:139-141 | sets the background and keeps the patch size and polygons |
| NineBlock.NineBlockIdenticonRenderer.DrawPatch | core/src/main/java/com/docuverse/identicon/NineBlockIdenticonRenderer.java:258-291 | in the modelled pixels, the `clearRect` step sets exactly the cell to the normalised cell colour; returns the normalised patch shape at the cell centre, to be filled in the other colour (its stroke and fill are recorded, not rasterised) |
| NineBlock.NineBlockIdenticonRenderer.RenderSource | core/src/main/java/com/docuverse/identicon/NineBlockIdenticonRenderer.java:216-238 | the nine calls fill the nine planned shapes in order and leave the source image of `QuiltPixels` |
| NineBlock.NineBlockIdenticonRenderer.RenderQuilt | core/src/main/java/com/docuverse/identicon/NineBlockIdenticonRenderer.java:166-256 | fails exactly when `new BufferedImage` refuses the `3 patchSize` source or the `size` target; otherwise returns a fresh source image and shapes rendered from the decoded code, with the stroke decided by the colour distance |
| NineBlock.NineBlockIdenticonRenderer.Render | core/src/main/java/com/docuverse/identicon/NineBlockIdenticonRenderer.java:162-164 | the same result as `renderQuilt` on the code |
| NineBlock.NineBlockIdenticonRenderer.RenderBig | core/src/main/java/com/docuverse/identicon/NineBlockIdenticonRenderer.java:143-145 | renders `code.intValue()`, so only the low 32 bits of the big integer matter |

## Left out

- Polygon rasterisation is not modelled: the AWT stroke and fill of the shape. `DrawPatch` records each shape as a `ShapeDraw` (origin, quarter turns, outline, stroke, colour) and models only the `clearRect` pixels exactly. The image the model returns therefore holds the cleared cells only, with the shapes beside it as `shapes`.
- QuiltImage.QuiltColours: states the pixels after the nine `clearRect` calls, not the final image. A stroked outline can reach beyond its cell: at turn 0 or 3, and at every turn when the patch size is 0 or 1 modulo 4, patches 0 and 15 have vertical edges on `x` and `x + 4 * (patchSize / 4)`, which is `x + patchSize` (the closed bound of `PatchInsideCell`) when the patch size is a multiple of 4, and a one-pixel pen there paints the first column of the neighbouring cell, which may already have been drawn.
- The floating-point `AffineTransform` from `g.rotate(Math.toRadians(turn * 90))` is replaced by exact integer quarter turns `(x, y) -> (-y, x)`. The graphics transform, its save and restore, and `setBackground` are graphics-context state and are not modelled.
- The bicubic scaling to the target image is a floating-point library filter and is not modelled. The result records only the target size. A target size that `new BufferedImage` refuses is still an exception (`Allocatable`).
- The `float` square root of `getColorDistance` is replaced by the equivalent integer test on the squared distance (`DistanceBelow32`).
- NineBlock.NineBlockIdenticonRenderer.RenderQuilt: `patchSize * 3` is computed without 32-bit wrap-around. For a patch size above 715827882 the Java product wraps, giving a different source size or an exception; the model has the unbounded product.
- Canvas.NewImage: an image of fewer than `Integer.MAX_VALUE` pixels can still exhaust the Java heap (`OutOfMemoryError`); the heap size is outside the model, so such images are created.
- NineBlock.NineBlockIdenticonRenderer.SetBackgroundColor: the colour cannot be null. Java accepts `setBackgroundColor(null)`, and `renderQuilt` then throws a `NullPointerException` in `getColorDistance`.
- NineBlock.NineBlockIdenticonRenderer.SetBackgroundColor: the background is taken as opaque. A `Color` here has no alpha channel, so a translucent background passed to `clearRect` and to the shape fill is not modelled.
- NineBlock.NineBlockIdenticonRenderer.DrawPatch: the two Java `assert`s (`patch >= 0`, `turn >= 0`) are preconditions. Every call from `renderQuilt` meets them.
- `RenderSource` is the drawing section of `renderQuilt`, lines 216-238, split out as a method of its own; `RenderQuilt` calls it once.
- `getPatchSize` and `getBackgroundColor` are plain getters (`GetPatchSize`, `GetBackgroundColor`) with nothing to state.
- The servlet `IdenticonServlet.java` is not part of this model: HTTP handling, headers, PNG encoding and cache loading. It also depends on `IdenticonUtil`, whose source is absent.
- The two `MemoryIdenticonCache.java` files are not part of this model. They wrap third-party caches and have no logic of their own.
