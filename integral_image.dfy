/** Integral images and block sums over integer images. An image is given as its rows,
    all of the same width; every sum here is stated against `RectSum`, the plain double
    sum over a rectangle of pixels. */
module IntegralImages {
  import opened NumpyOps

  function Max0(n: int): nat
  {
    if n < 0 then 0 else n
  }

  /** Sum of column j over rows r0 .. r1-1. */
  function ColSum(img: seq<seq<int>>, r0: nat, r1: nat, j: nat): int
    requires IsMatrix(img, Width(img)) && r0 <= r1 <= |img| && j < Width(img)
    decreases r1 - r0
  {
    if r0 == r1 then 0 else ColSum(img, r0, r1 - 1, j) + img[r1 - 1][j]
  }

  /** Sum of the pixels in rows r0 .. r1-1 and columns c0 .. c1-1. */
  function RectSum(img: seq<seq<int>>, r0: nat, r1: nat, c0: nat, c1: nat): int
    requires IsMatrix(img, Width(img)) && r0 <= r1 <= |img| && c0 <= c1 <= Width(img)
    decreases c1 - c0
  {
    if c0 == c1 then 0 else RectSum(img, r0, r1, c0, c1 - 1) + ColSum(img, r0, r1, c1 - 1)
  }

  lemma {:induction false} ColSumSplit(img: seq<seq<int>>, r0: nat, m: nat, r1: nat, j: nat)
    requires IsMatrix(img, Width(img)) && r0 <= m <= r1 <= |img| && j < Width(img)
    ensures ColSum(img, r0, r1, j) == ColSum(img, r0, m, j) + ColSum(img, m, r1, j)
    decreases r1 - m
  {
    if m < r1 {
      ColSumSplit(img, r0, m, r1 - 1, j);
    }
  }

  /** A rectangle splits into its rows above and below m. */
  lemma {:induction false} RectSumSplitRows(img: seq<seq<int>>, r0: nat, m: nat, r1: nat, c0: nat, c1: nat)
    requires IsMatrix(img, Width(img)) && r0 <= m <= r1 <= |img| && c0 <= c1 <= Width(img)
    ensures RectSum(img, r0, r1, c0, c1) == RectSum(img, r0, m, c0, c1) + RectSum(img, m, r1, c0, c1)
    decreases c1 - c0
  {
    if c0 < c1 {
      RectSumSplitRows(img, r0, m, r1, c0, c1 - 1);
      ColSumSplit(img, r0, m, r1, c1 - 1);
    }
  }

  /** A rectangle splits into its columns left and right of m. */
  lemma {:induction false} RectSumSplitCols(img: seq<seq<int>>, r0: nat, r1: nat, c0: nat, m: nat, c1: nat)
    requires IsMatrix(img, Width(img)) && r0 <= r1 <= |img| && c0 <= m <= c1 <= Width(img)
    ensures RectSum(img, r0, r1, c0, c1) == RectSum(img, r0, r1, c0, m) + RectSum(img, r0, r1, m, c1)
    decreases c1 - m
  {
    if m < c1 {
      RectSumSplitCols(img, r0, r1, c0, m, c1 - 1);
    }
  }

  /** Total of the first c entries of a vector. */
  function SumUpTo(s: seq<int>, c: nat): int
    requires c <= |s|
  {
    if c == 0 then 0 else SumUpTo(s, c - 1) + s[c - 1]
  }

  /** numpy.cumsum(img, 0): each row adds the image row to the previous running row. */
  function CumSumDown(img: seq<seq<int>>): (r: seq<seq<int>>)
    requires IsMatrix(img, Width(img))
    ensures |r| == |img| && IsMatrix(r, Width(img))
  {
    if |img| <= 1 then img
    else
      var prev := CumSumDown(img[..|img| - 1]);
      var row := img[|img| - 1];
      prev + [seq(Width(img), j requires 0 <= j < Width(img) => prev[|prev| - 1][j] + row[j])]
  }

  /** Column totals agree on the rows an image shares with its first k rows. */
  lemma {:induction false} ColSumPrefix(img: seq<seq<int>>, k: nat, r1: nat, j: nat)
    requires IsMatrix(img, Width(img)) && r1 <= k <= |img| && j < Width(img) && k > 0
    ensures IsMatrix(img[..k], Width(img[..k])) && Width(img[..k]) == Width(img)
    ensures ColSum(img[..k], 0, r1, j) == ColSum(img, 0, r1, j)
  {
    if r1 > 0 {
      ColSumPrefix(img, k, r1 - 1, j);
    }
  }

  /** Entry (i, j) of the running sum down the columns is the total of column j over
      rows 0 .. i. */
  lemma {:induction false} CumSumDownIsColSum(img: seq<seq<int>>)
    requires IsMatrix(img, Width(img))
    ensures forall i, j :: 0 <= i < |img| && 0 <= j < Width(img) ==>
      CumSumDown(img)[i][j] == ColSum(img, 0, i + 1, j)
    decreases |img|
  {
    var n := |img|;
    if n == 1 {
      forall j | 0 <= j < Width(img)
        ensures CumSumDown(img)[0][j] == ColSum(img, 0, 1, j)
      {
        assert ColSum(img, 0, 0, j) == 0;
      }
    } else if n > 1 {
      var init := img[..n - 1];
      CumSumDownIsColSum(init);
      forall i, j | 0 <= i < n && 0 <= j < Width(img)
        ensures CumSumDown(img)[i][j] == ColSum(img, 0, i + 1, j)
      {
        if i < n - 1 {
          ColSumPrefix(img, n - 1, i + 1, j);
        } else {
          ColSumPrefix(img, n - 1, n - 1, j);
        }
      }
    }
  }

  /** numpy.cumsum(m, 1): entry (i, j) totals row i over columns 0 .. j. */
  function CumSumAcross(m: seq<seq<int>>): (r: seq<seq<int>>)
    ensures |r| == |m|
    ensures forall i :: 0 <= i < |m| ==> |r[i]| == |m[i]|
  {
    seq(|m|, i requires 0 <= i < |m| =>
      seq(|m[i]|, j requires 0 <= j < |m[i]| => SumUpTo(m[i], j + 1)))
  }

  /** Summing the running column totals of rows 0 .. i over the first c columns gives
      the rectangle of those rows and columns. */
  lemma {:induction false} SumOfColumnTotals(img: seq<seq<int>>, i: nat, c: nat)
    requires IsMatrix(img, Width(img)) && i < |img| && c <= Width(img)
    ensures SumUpTo(CumSumDown(img)[i], c) == RectSum(img, 0, i + 1, 0, c)
  {
    if c > 0 {
      SumOfColumnTotals(img, i, c - 1);
      CumSumDownIsColSum(img);
    }
  }

  /** compute_integral_image: a running sum down the columns, then along the rows. */
  function IntegralImage(img: seq<seq<int>>): (ii: seq<seq<int>>)
    requires IsMatrix(img, Width(img))
    ensures |ii| == |img| && IsMatrix(ii, Width(img))
  {
    CumSumAcross(CumSumDown(img))
  }

  /** Entry (r, c) of the integral image is the sum of the pixels at or above row r and
      at or left of column c. */
  lemma IntegralImageIsRectSum(img: seq<seq<int>>, r: nat, c: nat)
    requires IsMatrix(img, Width(img)) && r < |img| && c < Width(img)
    ensures IntegralImage(img)[r][c] == RectSum(img, 0, r + 1, 0, c + 1)
  {
    SumOfColumnTotals(img, r, c + 1);
  }

  /** The integral image with a zero row on top and a zero column on the left. */
  function Pad(ii: seq<seq<int>>, rows: nat, cols: nat): (p: seq<seq<int>>)
    requires |ii| == rows && IsMatrix(ii, cols)
    ensures |p| == rows + 1 && IsMatrix(p, cols + 1)
  {
    seq(rows + 1, a requires 0 <= a <= rows =>
      seq(cols + 1, b requires 0 <= b <= cols =>
        if a == 0 || b == 0 then 0 else ii[a - 1][b - 1]))
  }

  /** Entry (a, b) of the padded integral image is the sum of the pixels in the first a
      rows and the first b columns. */
  lemma PaddedIsRectSum(img: seq<seq<int>>, a: nat, b: nat)
    requires IsMatrix(img, Width(img)) && a <= |img| && b <= Width(img)
    ensures Pad(IntegralImage(img), |img|, Width(img))[a][b] == RectSum(img, 0, a, 0, b)
  {
    if a > 0 && b > 0 {
      IntegralImageIsRectSum(img, a - 1, b - 1);
    } else if b > 0 {
      ZeroRowsRect(img, b);
    }
  }

  lemma {:induction false} ZeroRowsRect(img: seq<seq<int>>, c: nat)
    requires IsMatrix(img, Width(img)) && c <= Width(img)
    ensures RectSum(img, 0, 0, 0, c) == 0
  {
    if c > 0 {
      ZeroRowsRect(img, c - 1);
    }
  }

  /** block_sum of get_features for block size (sy + 1) x (sx + 1), by inclusion and
      exclusion on the padded integral image p of a rows x cols image. */
  function BlockSums(p: seq<seq<int>>, rows: nat, cols: nat, sx: nat, sy: nat): (b: seq<seq<int>>)
    requires |p| == rows + 1 && IsMatrix(p, cols + 1)
    ensures |b| == Max0(rows - sy) && IsMatrix(b, Max0(cols - sx))
  {
    seq(Max0(rows - sy), i requires 0 <= i < Max0(rows - sy) =>
      seq(Max0(cols - sx), j requires 0 <= j < Max0(cols - sx) =>
        p[i + sy + 1][j + sx + 1] + p[i][j] - p[i + sy + 1][j] - p[i][j + sx + 1]))
  }

  /** Every block sum is the sum of the image over its block: rows i .. i+sy and
      columns j .. j+sx. */
  lemma BlockSumIsRectSum(img: seq<seq<int>>, sx: nat, sy: nat, i: nat, j: nat)
    requires IsMatrix(img, Width(img))
    requires i + sy < |img| && j + sx < Width(img)
    ensures var b := BlockSums(Pad(IntegralImage(img), |img|, Width(img)), |img|, Width(img), sx, sy);
            b[i][j] == RectSum(img, i, i + sy + 1, j, j + sx + 1)
  {
    var r1, c1 := i + sy + 1, j + sx + 1;
    PaddedIsRectSum(img, r1, c1);
    PaddedIsRectSum(img, i, j);
    PaddedIsRectSum(img, r1, j);
    PaddedIsRectSum(img, i, c1);
    RectSumSplitCols(img, 0, r1, 0, j, c1);
    RectSumSplitCols(img, 0, i, 0, j, c1);
    RectSumSplitRows(img, 0, i, r1, j, c1);
  }
}
