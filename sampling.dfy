/**
 * normalizeQRCode and pickMeanPixel: estimate the module count of the
 * rectified code and sample one value per module. The module count follows
 * the version rule of ISO/IEC 18004:2015, section 5.3.1: version v has
 * 17 + 4v modules per side.
 */
module Sampling {
  import opened Arithmetic

  /** BINARY_THRESHOLD: grey values above it are light. */
  const BinaryThreshold: int := 127

  /** A single-channel 8-bit image of the given size, row by row. */
  predicate IsImage(img: seq<seq<int>>, rows: nat, cols: nat)
  {
    |img| == rows && forall r :: 0 <= r < rows ==> |img[r]| == cols
  }

  // ---------------------------------------------------------------------
  // Grid size
  // ---------------------------------------------------------------------

  /** std::round: to the nearest integer, halves away from zero. */
  function Round(r: real): (n: int)
    ensures -0.5 <= n as real - r <= 0.5
    ensures r >= 0.0 ==> -0.5 < n as real - r
    ensures r < 0.0 ==> n as real - r < 0.5
  {
    if r >= 0.0 then (r + 0.5).Floor else -((-r + 0.5).Floor)
  }

  /**
   * The module count per side: the side measured in modules,
   * rows / moduleSize, snapped to the nearest size of the form 17 + 4v.
   * It is at least 1 (version -4) for every positive module size.
   */
  function GridSide(rows: nat, moduleSize: real): (side: int)
    requires moduleSize > 0.0
    ensures side >= 1 && side % 4 == 1
    ensures -2.0 <= side as real - rows as real / moduleSize <= 2.0
  {
    var v := Round((rows as real / moduleSize - 17.0) / 4.0);
    assert (v * 4 + 17) % 4 == 1 by {
      assert v * 4 + 17 == (v + 4) * 4 + 1;
    }
    v * 4 + 17
  }

  /** INT_MAX of the 32-bit `int` in which normalizeQRCode computes the grid side. */
  const MaxInt: int := 0x7fff_ffff

  /**
   * A module size far below rows / 2^31 takes the grid side past INT_MAX:
   * 800 rows at module size 10^-7 measure 8 * 10^9 modules. The rounded
   * quotient, 1999999996, still fits in `int`; the `* 4 + 17` overflows.
   */
  lemma {:induction false} GridSideOverflows()
    ensures GridSide(800, 1.0 / 10000000.0) > MaxInt
    ensures (GridSide(800, 1.0 / 10000000.0) - 17) / 4 <= MaxInt
  {
    var x := (800 as real / (1.0 / 10000000.0) - 17.0) / 4.0;
    assert x == 1999999995.75;
    assert Round(x) == 1999999996;
  }

  /**
   * A measured side strictly within two modules of 17 + 4v gives exactly
   * that size; a code of version 1 measured as 19 to 23 modules gives 21.
   */
  lemma GridSideSnapsToVersion(rows: nat, moduleSize: real, v: int)
    requires moduleSize > 0.0
    requires -2.0 < rows as real / moduleSize - (17 + 4 * v) as real < 2.0
    ensures GridSide(rows, moduleSize) == 17 + 4 * v
  {
    var x := (rows as real / moduleSize - 17.0) / 4.0;
    assert -0.5 < x - v as real < 0.5;
    var n := Round(x);
    assert -1.0 < n as real - v as real < 1.0;
  }

  // ---------------------------------------------------------------------
  // Sample positions
  // ---------------------------------------------------------------------

  /**
   * Pixel coordinate of the centre of module r: (int)(rows / side * (r + 0.5)),
   * written over the integers.
   */
  function SampleCoord(rows: nat, side: int, r: nat): int
    requires side >= 1
  {
    rows * (2 * r + 1) / (2 * side)
  }

  /** moduleSize > 3: the module is wide enough for a 3x3 window. */
  predicate UsesWindow(rows: nat, side: int)
  {
    rows > 3 * side
  }

  /** Every module centre lies inside the image. */
  lemma SampleInside(rows: nat, side: int, r: nat)
    requires side >= 1 && r < side && rows >= 1
    ensures 0 <= SampleCoord(rows, side, r) < rows
  {
    var a := rows * (2 * r + 1);
    MulAtLeast(2 * r + 1, rows);
    var d := 2 * side - (2 * r + 1);
    assert (2 * side) * rows - a == d * rows;
    MulAtLeast(d, rows);
    DivBelow(a, 2 * side, rows);
    DivAtLeast(a, 2 * side, 0);
  }

  /** When the window is used, the 3x3 neighbourhood of every centre lies inside the image. */
  lemma SampleWindowInside(rows: nat, side: int, r: nat)
    requires side >= 1 && r < side && UsesWindow(rows, side)
    ensures 1 <= SampleCoord(rows, side, r) && SampleCoord(rows, side, r) + 1 < rows
  {
    var a := rows * (2 * r + 1);
    assert a == rows + (2 * r) * rows;
    MulAtLeast(2 * r, rows);
    DivAtLeast(a, 2 * side, 1);
    var d := 2 * side - (2 * r + 1);
    assert (2 * side) * (rows - 1) - a == d * rows - 2 * side;
    MulAtLeast(d, rows);
    DivBelow(a, 2 * side, rows - 1);
  }

  // ---------------------------------------------------------------------
  // pickMeanPixel
  // ---------------------------------------------------------------------

  /** Sum of img[r][c0 .. c1). */
  function RowSum(img: seq<seq<int>>, r: int, c0: int, c1: int): int
    requires 0 <= r < |img| && 0 <= c0 <= c1 <= |img[r]|
    decreases c1 - c0
  {
    if c1 == c0 then 0 else RowSum(img, r, c0, c1 - 1) + img[r][c1 - 1]
  }

  /** Sum of the block of rows r0 .. r1 and columns c0 .. c1 (both half-open). */
  function BlockSum(img: seq<seq<int>>, cols: nat, r0: int, r1: int, c0: int, c1: int): int
    requires IsImage(img, |img|, cols) && 0 <= r0 <= r1 <= |img| && 0 <= c0 <= c1 <= cols
    decreases r1 - r0
  {
    if r1 == r0 then 0 else BlockSum(img, cols, r0, r1 - 1, c0, c1) + RowSum(img, r1 - 1, c0, c1)
  }

  /** The window of half-width k around (x, y) lies inside the image. */
  predicate WindowInside(img: seq<seq<int>>, cols: nat, x: int, y: int, k: nat)
  {
    IsImage(img, |img|, cols) && k <= x && x + k < |img| && k <= y && y + k < cols
  }

  /**
   * The value pickMeanPixel returns: the window sum divided by (k + 2)^2
   * (9 for the 3x3 window used), 255 above the binary threshold, else 0.
   */
  function MeanPixel(img: seq<seq<int>>, cols: nat, x: int, y: int, k: nat): (v: int)
    requires WindowInside(img, cols, x, y, k)
    ensures v == 0 || v == 255
  {
    var sum := BlockSum(img, cols, x - k, x + k + 1, y - k, y + k + 1);
    if sum / ((k + 2) * (k + 2)) > BinaryThreshold then 255 else 0
  }

  /** The nested accumulation loop of pickMeanPixel. */
  method PickMeanPixel(img: seq<seq<int>>, cols: nat, x: int, y: int, k: int) returns (v: int)
    requires k >= 0 && WindowInside(img, cols, x, y, k)
    ensures v == MeanPixel(img, cols, x, y, k)
  {
    var avg := 0;
    var i := -k;
    while i <= k
      invariant -k <= i <= k + 1
      invariant avg == BlockSum(img, cols, x - k, x + i, y - k, y + k + 1)
    {
      var j := -k;
      while j <= k
        invariant -k <= j <= k + 1
        invariant avg == BlockSum(img, cols, x - k, x + i, y - k, y + k + 1) + RowSum(img, x + i, y - k, y + j)
      {
        avg := avg + img[x + i][y + j];
        j := j + 1;
      }
      i := i + 1;
    }
    if avg / ((k + 2) * (k + 2)) > BinaryThreshold {
      return 255;
    }
    return 0;
  }

  /** Number of light (255) pixels in img[r][c0 .. c1). */
  function RowLight(img: seq<seq<int>>, r: int, c0: int, c1: int): nat
    requires 0 <= r < |img| && 0 <= c0 <= c1 <= |img[r]|
    decreases c1 - c0
  {
    if c1 == c0 then 0 else RowLight(img, r, c0, c1 - 1) + (if img[r][c1 - 1] == 255 then 1 else 0)
  }

  function BlockLight(img: seq<seq<int>>, cols: nat, r0: int, r1: int, c0: int, c1: int): nat
    requires IsImage(img, |img|, cols) && 0 <= r0 <= r1 <= |img| && 0 <= c0 <= c1 <= cols
    decreases r1 - r0
  {
    if r1 == r0 then 0 else BlockLight(img, cols, r0, r1 - 1, c0, c1) + RowLight(img, r1 - 1, c0, c1)
  }

  /** Every pixel is 0 or 255, as after the binary threshold. */
  predicate IsBinary(img: seq<seq<int>>)
  {
    forall r, c :: 0 <= r < |img| && 0 <= c < |img[r]| ==> img[r][c] == 0 || img[r][c] == 255
  }

  lemma {:induction false} RowSumOfBinary(img: seq<seq<int>>, r: int, c0: int, c1: int)
    requires 0 <= r < |img| && 0 <= c0 <= c1 <= |img[r]| && IsBinary(img)
    ensures RowSum(img, r, c0, c1) == 255 * RowLight(img, r, c0, c1)
    ensures RowLight(img, r, c0, c1) <= c1 - c0
    decreases c1 - c0
  {
    if c1 > c0 {
      RowSumOfBinary(img, r, c0, c1 - 1);
    }
  }

  lemma {:induction false} BlockSumOfBinary(img: seq<seq<int>>, cols: nat, r0: int, r1: int, c0: int, c1: int)
    requires IsImage(img, |img|, cols) && 0 <= r0 <= r1 <= |img| && 0 <= c0 <= c1 <= cols && IsBinary(img)
    ensures BlockSum(img, cols, r0, r1, c0, c1) == 255 * BlockLight(img, cols, r0, r1, c0, c1)
    ensures BlockLight(img, cols, r0, r1, c0, c1) <= (r1 - r0) * (c1 - c0)
    decreases r1 - r0
  {
    if r1 > r0 {
      BlockSumOfBinary(img, cols, r0, r1 - 1, c0, c1);
      RowSumOfBinary(img, r1 - 1, c0, c1);
      assert (r1 - 1 - r0) * (c1 - c0) + (c1 - c0) == (r1 - r0) * (c1 - c0);
    }
  }

  /**
   * On a binary image the 3x3 window is a majority vote: the module is light
   * exactly when at least five of the nine pixels are light.
   */
  lemma MeanPixelIsMajority(img: seq<seq<int>>, cols: nat, x: int, y: int)
    requires WindowInside(img, cols, x, y, 1) && IsBinary(img)
    ensures MeanPixel(img, cols, x, y, 1) == 255 <==> BlockLight(img, cols, x - 1, x + 2, y - 1, y + 2) >= 5
  {
    BlockSumOfBinary(img, cols, x - 1, x + 2, y - 1, y + 2);
    var w := BlockLight(img, cols, x - 1, x + 2, y - 1, y + 2);
    assert w <= 9;
    if w >= 5 {
      DivAtLeast(255 * w, 9, 128);
    } else {
      DivBelow(255 * w, 9, 128);
    }
  }

  // ---------------------------------------------------------------------
  // normalizeQRCode
  // ---------------------------------------------------------------------

  /** The value of module (r, c) of a grid with `side` modules per side. */
  function Cell(binary: seq<seq<int>>, side: int, r: nat, c: nat): (v: int)
    requires |binary| >= 1 && IsImage(binary, |binary|, |binary|)
    requires side >= 1 && r < side && c < side
    ensures v == 0 || v == 255
  {
    var rows := |binary|;
    SampleInside(rows, side, r);
    SampleInside(rows, side, c);
    var x := SampleCoord(rows, side, r);
    var y := SampleCoord(rows, side, c);
    if UsesWindow(rows, side) then
      SampleWindowInside(rows, side, r);
      SampleWindowInside(rows, side, c);
      MeanPixel(binary, rows, x, y, 1)
    else if binary[x][y] > BinaryThreshold then 255
    else 0
  }

  /**
   * The sampling loop of normalizeQRCode over the binarised rectified image
   * (square, rows x rows). The grid side is 17 + 4v and every cell is 0 or 255.
   */
  method NormalizeQRCode(binary: seq<seq<int>>, moduleSize: real) returns (grid: array2<int>)
    requires moduleSize > 0.0
    requires |binary| >= 1 && IsImage(binary, |binary|, |binary|)
    ensures grid.Length0 == GridSide(|binary|, moduleSize) && grid.Length1 == grid.Length0
    ensures grid.Length0 % 4 == 1
    ensures forall r, c :: 0 <= r < grid.Length0 && 0 <= c < grid.Length1 ==>
              grid[r, c] == Cell(binary, grid.Length0, r, c)
    ensures forall r, c :: 0 <= r < grid.Length0 && 0 <= c < grid.Length1 ==> grid[r, c] == 0 || grid[r, c] == 255
    ensures fresh(grid)
  {
    var rows := |binary|;
    var size := GridSide(rows, moduleSize);
    grid := new int[size, size]((_, _) => 0);
    var r := 0;
    while r < size
      invariant 0 <= r <= size
      invariant forall r', c' :: 0 <= r' < r && 0 <= c' < size ==> grid[r', c'] == Cell(binary, size, r', c')
      invariant forall r', c' :: r <= r' < size && 0 <= c' < size ==> grid[r', c'] == 0
    {
      var c := 0;
      while c < size
        invariant 0 <= c <= size
        invariant forall r', c' :: 0 <= r' < r && 0 <= c' < size ==> grid[r', c'] == Cell(binary, size, r', c')
        invariant forall c' :: 0 <= c' < c ==> grid[r, c'] == Cell(binary, size, r, c')
        invariant forall c' :: c <= c' < size ==> grid[r, c'] == 0
        invariant forall r', c' :: r < r' < size && 0 <= c' < size ==> grid[r', c'] == 0
      {
        SampleInside(rows, size, r);
        SampleInside(rows, size, c);
        var x := SampleCoord(rows, size, r);
        var y := SampleCoord(rows, size, c);
        if UsesWindow(rows, size) {
          SampleWindowInside(rows, size, r);
          SampleWindowInside(rows, size, c);
          var v := PickMeanPixel(binary, rows, x, y, 1);
          grid[r, c] := v;
        } else {
          if binary[x][y] > BinaryThreshold {
            grid[r, c] := 255;
          }
        }
        c := c + 1;
      }
      r := r + 1;
    }
  }
}
