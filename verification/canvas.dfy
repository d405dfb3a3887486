/** The raster the renderer draws on: a `BufferedImage` of type `TYPE_INT_RGB` as a
    two-dimensional array of colours indexed `[x, y]`, and `Graphics.clearRect`,
    the only pixel operation of the renderer that is modelled exactly. */
module Canvas {
  import opened Colors
  import opened Wrappers

  /** `IllegalArgument`: a non-positive width or height. `TooLarge`: the pixel
      count `w * h` reaches `Integer.MAX_VALUE`; the raster's `int` pixel count
      then wraps or its array cannot be allocated, and the constructor throws. */
  datatype ImageError = IllegalArgument | TooLarge

  const INT_MAX: int := 0x7FFF_FFFF

  /** The dimensions `new BufferedImage(w, h, TYPE_INT_RGB)` accepts. */
  predicate Allocatable(w: int, h: int)
  {
    0 < w && 0 < h && w * h < INT_MAX
  }

  predicate InRect(px: int, py: int, x: int, y: int, w: int, h: int)
  {
    x <= px < x + w && y <= py < y + h
  }

  /** The pixels of an image as a value: column `px` holds `image[px, 0..]`. */
  function Pixels(image: array2<Color>): (pix: seq<seq<Color>>)
    reads image
    ensures |pix| == image.Length0
    ensures forall px :: 0 <= px < |pix| ==> |pix[px]| == image.Length1
    ensures forall px, py :: 0 <= px < image.Length0 && 0 <= py < image.Length1 ==> pix[px][py] == image[px, py]
  {
    seq(image.Length0, px requires 0 <= px < image.Length0 reads image =>
      seq(image.Length1, py requires 0 <= py < image.Length1 reads image => image[px, py]))
  }

  /** `pix` with the rectangle at `(x, y)` of size `w` by `h` set to `c`. */
  function Cleared(pix: seq<seq<Color>>, x: int, y: int, w: int, h: int, c: Color): seq<seq<Color>>
  {
    seq(|pix|, px requires 0 <= px < |pix| =>
      seq(|pix[px]|, py requires 0 <= py < |pix[px]| => if InRect(px, py, x, y, w, h) then c else pix[px][py]))
  }

  lemma PixelsAre(image: array2<Color>, pix: seq<seq<Color>>)
    requires |pix| == image.Length0
    requires forall px :: 0 <= px < |pix| ==> |pix[px]| == image.Length1
    requires forall px, py :: 0 <= px < image.Length0 && 0 <= py < image.Length1 ==> pix[px][py] == image[px, py]
    ensures Pixels(image) == pix
  {
    var q := Pixels(image);
    forall px | 0 <= px < |pix|
      ensures q[px] == pix[px]
    {
    }
  }

  /** A `w` by `h` black image. */
  function Blank(w: nat, h: nat): (pix: seq<seq<Color>>)
    ensures |pix| == w && forall px :: 0 <= px < w ==> |pix[px]| == h
  {
    seq(w, px => seq(h, py => Black))
  }

  /** `new BufferedImage(w, h, TYPE_INT_RGB)`: every pixel starts black; a
      non-positive width or height is an `IllegalArgumentException`, and a pixel
      count of `Integer.MAX_VALUE` or more is an exception too (which one depends
      on how the `int` product `w * h` wraps). */
  method NewImage(w: int, h: int) returns (r: Result<array2<Color>, ImageError>)
    ensures r.Failure? <==> !Allocatable(w, h)
    ensures r.Failure? ==> (r.error == IllegalArgument <==> w <= 0 || h <= 0)
    ensures r.Success? ==> fresh(r.value) && r.value.Length0 == w && r.value.Length1 == h
    ensures r.Success? ==> Pixels(r.value) == Blank(w, h)
  {
    if w <= 0 || h <= 0 {
      return Failure(IllegalArgument);
    }
    if w * h >= INT_MAX {
      return Failure(TooLarge);
    }
    var image := new Color[w, h]((px, py) => Black);
    PixelsAre(image, Blank(w, h));
    return Success(image);
  }

  /** `g.clearRect(x, y, w, h)` with background `c`: every pixel of the rectangle
      that lies on the image becomes `c`; every other pixel is unchanged. */
  method ClearRect(image: array2<Color>, x: int, y: int, w: int, h: int, c: Color)
    modifies image
    ensures forall px, py :: 0 <= px < image.Length0 && 0 <= py < image.Length1 ==>
      image[px, py] == if InRect(px, py, x, y, w, h) then c else old(image[px, py])
    ensures Pixels(image) == Cleared(old(Pixels(image)), x, y, w, h, c)
  {
    ghost var before := Pixels(image);
    var x0 := if x < 0 then 0 else x;
    var x1 := if x + w > image.Length0 then image.Length0 else x + w;
    var y0 := if y < 0 then 0 else y;
    var y1 := if y + h > image.Length1 then image.Length1 else y + h;
    var px := x0;
    while px < x1
      invariant x0 <= px && (x0 <= x1 ==> px <= x1)
      invariant forall i, j :: 0 <= i < image.Length0 && 0 <= j < image.Length1 ==>
        image[i, j] == if InRect(i, j, x, y, w, h) && i < px then c else old(image[i, j])
    {
      var py := y0;
      while py < y1
        invariant y0 <= py && (y0 <= y1 ==> py <= y1)
        invariant forall i, j :: 0 <= i < image.Length0 && 0 <= j < image.Length1 ==>
          image[i, j] == if InRect(i, j, x, y, w, h) && (i < px || (i == px && j < py)) then c else old(image[i, j])
      {
        image[px, py] := c;
        py := py + 1;
      }
      px := px + 1;
    }
    PixelsAre(image, Cleared(before, x, y, w, h, c));
  }
}
