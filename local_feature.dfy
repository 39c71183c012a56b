/** Block-based LBP feature extraction. For every block size (sy + 1) x (sx + 1), with
    sx below scale_max_x (outer) and sy below scale_max_y (inner), the block sums of the
    image are turned into a map of codes, the map is flattened column by column, and
    the flattened maps are concatenated. Python exceptions become `Err` results. */
module LocalFeatures {
  import opened NumpyOps
  import opened IntegralImages
  import opened LbpCodes

  /** The exceptions get_features can raise: numpy.zeros with a negative dimension, or a
      name that is read but never bound. */
  datatype FeatureError = NegativeDimensions | UnboundName(name: string)

  datatype Result<T> = Ok(value: T) | Err(error: FeatureError)

  /** The feature types that have a code map. */
  datatype CodeType = LBP | DLBP | MLBP

  predicate IsCodeType(ftype: string)
  {
    ftype == "lbp" || ftype == "dlbp" || ftype == "mlbp"
  }

  function Code(t: CodeType, b: seq<seq<int>>, y: nat, x: nat): int
    requires InWindow(b, y, x)
  {
    match t
    case LBP => LbpCode(b, y, x)
    case DLBP => DlbpCode(b, y, x)
    case MLBP => MlbpCode(b, y, x)
  }

  /** The dimy x dimx map of codes over a (dimy + 2) x (dimx + 2) map of block sums.
      Every code fits in a byte; dlbp codes stop at 100. */
  function CodeMap(t: CodeType, b: seq<seq<int>>, dimy: nat, dimx: nat): (m: seq<seq<int>>)
    requires |b| == dimy + 2 && IsMatrix(b, dimx + 2)
    ensures |m| == dimy && IsMatrix(m, dimx)
    ensures forall y, x :: 0 <= y < dimy && 0 <= x < dimx ==>
      0 <= m[y][x] <= (if t == DLBP then 100 else 255)
  {
    seq(dimy, y requires 0 <= y < dimy =>
      seq(dimx, x requires 0 <= x < dimx => Code(t, b, y, x)))
  }

  /** The code map of a block map of |b| rows and bcols columns (feature_map_dimy =
      |b| - 2, feature_map_dimx = bcols - 2), or the exception numpy.zeros raises for
      a negative dimension. */
  function CodeResult(t: CodeType, b: seq<seq<int>>, bcols: nat): Result<seq<seq<int>>>
    requires IsMatrix(b, bcols)
  {
    if |b| < 2 || bcols < 2 then Err(NegativeDimensions) else Ok(CodeMap(t, b, |b| - 2, bcols - 2))
  }

  /** The feature map of one scale, or the exception raised on the way, dispatched on
      the feature type in the order lbp, tlbp, dlbp, mlbp. */
  function ScaleMap(ftype: string, b: seq<seq<int>>, bcols: nat): Result<seq<seq<int>>>
    requires IsMatrix(b, bcols)
  {
    if ftype == "lbp" then CodeResult(LBP, b, bcols)
    else if ftype == "tlbp" then Tlbp(bcols - 2, |b| - 2)
    else if ftype == "dlbp" then CodeResult(DLBP, b, bcols)
    else if ftype == "mlbp" then CodeResult(MLBP, b, bcols)
    else Err(UnboundName("feature_map"))
  }

  /** tlbp: allocates the map, then loops over the unbound name num_neighbours (only
      num_neighbour is bound), so it never returns a map. */
  function Tlbp(dimx: int, dimy: int): (r: Result<seq<seq<int>>>)
    ensures r.Err?
    ensures r == Err(NegativeDimensions) <==> dimy < 0 || dimx < 0
  {
    if dimy < 0 || dimx < 0 then Err(NegativeDimensions) else Err(UnboundName("num_neighbours"))
  }

  /** Columns 0 .. n-1 of a map, one after the other. */
  function FirstColumns(m: seq<seq<int>>, dimx: nat, n: nat): (v: seq<int>)
    requires IsMatrix(m, dimx) && n <= dimx
    ensures |v| == |m| * n
  {
    if n == 0 then [] else FirstColumns(m, dimx, n - 1) + Column(m, n - 1)
  }

  /** numpy.reshape(feature_map, n, 1): the third argument is the `order`, and a true
      value asks for Fortran order, so the map is read column after column. */
  function FlattenColumnMajor(m: seq<seq<int>>, dimx: nat): (v: seq<int>)
    requires IsMatrix(m, dimx)
    ensures |v| == |m| * dimx
  {
    FirstColumns(m, dimx, dimx)
  }

  lemma {:induction false} FirstColumnsAt(m: seq<seq<int>>, dimx: nat, n: nat, y: nat, x: nat)
    requires IsMatrix(m, dimx) && n <= dimx && y < |m| && x < n
    ensures x * |m| + y < |m| * n
    ensures FirstColumns(m, dimx, n)[x * |m| + y] == m[y][x]
  {
    var prev := FirstColumns(m, dimx, n - 1);
    assert |prev| == |m| * (n - 1) == |m| * n - |m|;
    if x < n - 1 {
      FirstColumnsAt(m, dimx, n - 1, y, x);
    } else {
      assert x * |m| == |m| * (n - 1);
    }
  }

  /** Position x * rows + y of the flattened map holds the code at row y, column x. */
  lemma FlattenColumnMajorAt(m: seq<seq<int>>, dimx: nat, y: nat, x: nat)
    requires IsMatrix(m, dimx) && y < |m| && x < dimx
    ensures x * |m| + y < |FlattenColumnMajor(m, dimx)|
    ensures FlattenColumnMajor(m, dimx)[x * |m| + y] == m[y][x]
  {
    FirstColumnsAt(m, dimx, dimx, y, x);
  }

  /** The flattened feature map of scale (sx, sy), from the padded integral image p of a
      rows x cols image. It raises exactly when the type has no code map or the block map
      has fewer than 2 rows or columns (a negative feature-map size). */
  function ScaleVector(ftype: string, p: seq<seq<int>>, rows: nat, cols: nat, sx: nat, sy: nat): (r: Result<seq<int>>)
    requires |p| == rows + 1 && IsMatrix(p, cols + 1)
    ensures r.Err? <==> !IsCodeType(ftype) || rows - sy < 2 || cols - sx < 2
    ensures IsCodeType(ftype) && r.Err? ==> r == Err(NegativeDimensions)
  {
    var b := BlockSums(p, rows, cols, sx, sy);
    match ScaleMap(ftype, b, Max0(cols - sx))
    case Err(e) => Err(e)
    case Ok(m) => Ok(FlattenColumnMajor(m, Max0(cols - sx) - 2))
  }

  /** A scale that succeeds holds one code per interior block. */
  lemma ScaleVectorLength(ftype: string, p: seq<seq<int>>, rows: nat, cols: nat, sx: nat, sy: nat)
    requires |p| == rows + 1 && IsMatrix(p, cols + 1)
    requires ScaleVector(ftype, p, rows, cols, sx, sy).Ok?
    ensures |ScaleVector(ftype, p, rows, cols, sx, sy).value| == (rows - sy - 2) * (cols - sx - 2)
  {
  }

  /** numpy.hstack of two results: the first exception wins. */
  function Join(a: Result<seq<int>>, b: Result<seq<int>>): (r: Result<seq<int>>)
    ensures r.Err? <==> a.Err? || b.Err?
    ensures a.Err? ==> r == a
    ensures a.Ok? && b.Err? ==> r == b
    ensures a.Ok? && b.Ok? ==> r == Ok(a.value + b.value)
  {
    match a
    case Err(_) => a
    case Ok(u) => (match b case Err(_) => b case Ok(v) => Ok(u + v))
  }

  /** hstack is associative, so the nested scale loops build one flat vector. */
  lemma JoinAssociative(a: Result<seq<int>>, b: Result<seq<int>>, c: Result<seq<int>>)
    ensures Join(Join(a, b), c) == Join(a, Join(b, c))
  {
    if a.Ok? && b.Ok? && c.Ok? {
      assert (a.value + b.value) + c.value == a.value + (b.value + c.value);
    }
  }

  /** An empty vector is an identity of hstack on either side. */
  lemma JoinEmpty(a: Result<seq<int>>)
    ensures Join(Ok([]), a) == a
    ensures Join(a, Ok([])) == a
  {
    if a.Ok? {
      assert [] + a.value == a.value;
      assert a.value + [] == a.value;
    }
  }

  /** The inner loop over sy < n for one sx: it succeeds only when every scale does
      (InnerErrFromScale names the scale whose exception it raises). */
  function InnerScales(ftype: string, p: seq<seq<int>>, rows: nat, cols: nat, sx: nat, n: nat): (r: Result<seq<int>>)
    requires |p| == rows + 1 && IsMatrix(p, cols + 1)
    ensures r.Ok? ==> forall sy :: 0 <= sy < n ==> ScaleVector(ftype, p, rows, cols, sx, sy).Ok?
  {
    if n == 0 then Ok([])
    else Join(InnerScales(ftype, p, rows, cols, sx, n - 1), ScaleVector(ftype, p, rows, cols, sx, n - 1))
  }

  /** The outer loop over sx < n, each running the inner loop over sy < smy: it
      succeeds only when every inner loop does (OuterErrFromScale names the scale whose
      exception it raises). */
  function OuterScales(ftype: string, p: seq<seq<int>>, rows: nat, cols: nat, n: nat, smy: nat): (r: Result<seq<int>>)
    requires |p| == rows + 1 && IsMatrix(p, cols + 1)
    ensures r.Ok? ==> forall sx :: 0 <= sx < n ==> InnerScales(ftype, p, rows, cols, sx, smy).Ok?
  {
    if n == 0 then Ok([])
    else Join(OuterScales(ftype, p, rows, cols, n - 1, smy), InnerScales(ftype, p, rows, cols, n - 1, smy))
  }

  function Padded(img: seq<seq<int>>): (p: seq<seq<int>>)
    requires IsMatrix(img, Width(img))
    ensures |p| == |img| + 1 && IsMatrix(p, Width(img) + 1)
  {
    Pad(IntegralImage(img), |img|, Width(img))
  }

  /** What get_features returns, or raises, for the image and the two scale bounds:
      nothing to do for a zero bound, every scale's vector on success, and otherwise the
      exception of one scale. */
  function Features(ftype: string, img: seq<seq<int>>, smx: nat, smy: nat): (r: Result<seq<int>>)
    requires IsMatrix(img, Width(img))
    ensures smx == 0 || smy == 0 ==> r == Ok([])
    ensures r.Ok? ==> forall sx, sy :: 0 <= sx < smx && 0 <= sy < smy ==>
      ScaleVector(ftype, Padded(img), |img|, Width(img), sx, sy).Ok?
    ensures r.Err? ==> exists sx, sy ::
                         && 0 <= sx < smx && 0 <= sy < smy
                         && r == ScaleVector(ftype, Padded(img), |img|, Width(img), sx, sy)
  {
    var p, rows, cols := Padded(img), |img|, Width(img);
    var r := OuterScales(ftype, p, rows, cols, smx, smy);
    if smy == 0 then
      EmptyInnerLoops(ftype, p, rows, cols, smx);
      r
    else if r.Err? then
      OuterErrFromScale(ftype, p, rows, cols, smx, smy);
      r
    else
      r
  }

  /** An exception of the inner loop is the one of some scale. */
  lemma {:induction false} InnerErrFromScale(ftype: string, p: seq<seq<int>>, rows: nat, cols: nat, sx: nat, n: nat)
    requires |p| == rows + 1 && IsMatrix(p, cols + 1)
    requires InnerScales(ftype, p, rows, cols, sx, n).Err?
    ensures exists sy :: 0 <= sy < n && InnerScales(ftype, p, rows, cols, sx, n) == ScaleVector(ftype, p, rows, cols, sx, sy)
  {
    var prev := InnerScales(ftype, p, rows, cols, sx, n - 1);
    if prev.Err? {
      InnerErrFromScale(ftype, p, rows, cols, sx, n - 1);
      var sy :| 0 <= sy < n - 1 && prev == ScaleVector(ftype, p, rows, cols, sx, sy);
      assert InnerScales(ftype, p, rows, cols, sx, n) == ScaleVector(ftype, p, rows, cols, sx, sy);
    } else {
      assert InnerScales(ftype, p, rows, cols, sx, n) == ScaleVector(ftype, p, rows, cols, sx, n - 1);
    }
  }

  /** An exception of the outer loop is the one of some scale. */
  lemma {:induction false} OuterErrFromScale(ftype: string, p: seq<seq<int>>, rows: nat, cols: nat, n: nat, smy: nat)
    requires |p| == rows + 1 && IsMatrix(p, cols + 1)
    requires OuterScales(ftype, p, rows, cols, n, smy).Err?
    ensures exists sx, sy ::
              && 0 <= sx < n && 0 <= sy < smy
              && OuterScales(ftype, p, rows, cols, n, smy) == ScaleVector(ftype, p, rows, cols, sx, sy)
  {
    var prev := OuterScales(ftype, p, rows, cols, n - 1, smy);
    var r := OuterScales(ftype, p, rows, cols, n, smy);
    if prev.Err? {
      OuterErrFromScale(ftype, p, rows, cols, n - 1, smy);
      var sx, sy :| 0 <= sx < n - 1 && 0 <= sy < smy && prev == ScaleVector(ftype, p, rows, cols, sx, sy);
      assert r == ScaleVector(ftype, p, rows, cols, sx, sy);
    } else {
      var inner := InnerScales(ftype, p, rows, cols, n - 1, smy);
      assert r == inner;
      InnerErrFromScale(ftype, p, rows, cols, n - 1, smy);
      var sy :| 0 <= sy < smy && inner == ScaleVector(ftype, p, rows, cols, n - 1, sy);
      assert r == ScaleVector(ftype, p, rows, cols, n - 1, sy);
    }
  }

  /** Once a scale has raised, the later ones do not matter. */
  lemma {:induction false} InnerErrPersists(ftype: string, p: seq<seq<int>>, rows: nat, cols: nat, sx: nat, n: nat, m: nat)
    requires |p| == rows + 1 && IsMatrix(p, cols + 1)
    requires n <= m && InnerScales(ftype, p, rows, cols, sx, n).Err?
    ensures InnerScales(ftype, p, rows, cols, sx, m) == InnerScales(ftype, p, rows, cols, sx, n)
    decreases m - n
  {
    if n < m {
      InnerErrPersists(ftype, p, rows, cols, sx, n, m - 1);
    }
  }

  lemma {:induction false} OuterErrPersists(ftype: string, p: seq<seq<int>>, rows: nat, cols: nat, n: nat, m: nat, smy: nat)
    requires |p| == rows + 1 && IsMatrix(p, cols + 1)
    requires n <= m && OuterScales(ftype, p, rows, cols, n, smy).Err?
    ensures OuterScales(ftype, p, rows, cols, m, smy) == OuterScales(ftype, p, rows, cols, n, smy)
    decreases m - n
  {
    if n < m {
      OuterErrPersists(ftype, p, rows, cols, n, m - 1, smy);
    }
  }

  /** The first scale that raises decides the result of get_features. */
  lemma FirstErrorDecides(ftype: string, p: seq<seq<int>>, rows: nat, cols: nat, smx: nat, smy: nat, sx: nat, sy: nat)
    requires |p| == rows + 1 && IsMatrix(p, cols + 1)
    requires sx < smx && sy < smy
    requires OuterScales(ftype, p, rows, cols, sx, smy).Ok?
    requires InnerScales(ftype, p, rows, cols, sx, sy).Ok?
    requires ScaleVector(ftype, p, rows, cols, sx, sy).Err?
    ensures OuterScales(ftype, p, rows, cols, smx, smy) == ScaleVector(ftype, p, rows, cols, sx, sy)
  {
    InnerErrPersists(ftype, p, rows, cols, sx, sy + 1, smy);
    OuterErrPersists(ftype, p, rows, cols, sx + 1, smx, smy);
  }

  /** Appending the vector of scale (sx, sy) extends the inner loop by one scale. */
  lemma InnerStep(ftype: string, p: seq<seq<int>>, rows: nat, cols: nat, sx: nat, sy: nat,
                  before: seq<int>, acc: seq<int>, v: seq<int>)
    requires |p| == rows + 1 && IsMatrix(p, cols + 1)
    requires |before| <= |acc| && acc[..|before|] == before
    requires InnerScales(ftype, p, rows, cols, sx, sy) == Ok(acc[|before|..])
    requires ScaleVector(ftype, p, rows, cols, sx, sy) == Ok(v)
    ensures InnerScales(ftype, p, rows, cols, sx, sy + 1) == Ok((acc + v)[|before|..])
    ensures (acc + v)[..|before|] == before
  {
    assert (acc + v)[|before|..] == acc[|before|..] + v;
    assert (acc + v)[..|before|] == acc[..|before|];
  }

  /** Once the inner loop of sx is done, the outer loop has covered sx + 1 columns. */
  lemma OuterStep(ftype: string, p: seq<seq<int>>, rows: nat, cols: nat, sx: nat, smy: nat,
                  before: seq<int>, acc: seq<int>)
    requires |p| == rows + 1 && IsMatrix(p, cols + 1)
    requires OuterScales(ftype, p, rows, cols, sx, smy) == Ok(before)
    requires |before| <= |acc| && acc[..|before|] == before
    requires InnerScales(ftype, p, rows, cols, sx, smy) == Ok(acc[|before|..])
    ensures OuterScales(ftype, p, rows, cols, sx + 1, smy) == Ok(acc)
  {
    assert acc == acc[..|before|] + acc[|before|..];
  }

  /** Number of feature-map rows (or columns) summed over the block sizes 1 .. m along
      an image side of length n: the sum of n - s - 2 for s < m. */
  function ScaleCount(n: int, m: nat): int
  {
    if m == 0 then 0 else ScaleCount(n, m - 1) + (n - (m - 1) - 2)
  }

  /** The closed form: 2 * ScaleCount(n, m) == m * (2n - m - 3). */
  lemma {:induction false} ScaleCountClosedForm(n: int, m: nat)
    ensures 2 * ScaleCount(n, m) == m * (2 * n - m - 3)
  {
    if m > 0 {
      ScaleCountClosedForm(n, m - 1);
      assert (m - 1) * (2 * n - (m - 1) - 3) + 2 * (n - (m - 1) - 2) == m * (2 * n - m - 3);
    }
  }

  /** The inner loop of a code type over sy < n raises exactly when its last scale
      does. */
  lemma {:induction false} InnerScalesOutcome(ftype: string, p: seq<seq<int>>, rows: nat, cols: nat, sx: nat, n: nat)
    requires |p| == rows + 1 && IsMatrix(p, cols + 1) && IsCodeType(ftype)
    ensures var r := InnerScales(ftype, p, rows, cols, sx, n);
            && (r.Err? <==> n > 0 && (rows - (n - 1) < 2 || cols - sx < 2))
            && (r.Err? ==> r == Err(NegativeDimensions))
  {
    if n > 0 {
      InnerScalesOutcome(ftype, p, rows, cols, sx, n - 1);
    }
  }

  /** When the inner loop of a code type succeeds, it gives cols - sx - 2 codes per
      feature-map row, over the rows of all its scales. */
  lemma {:induction false} InnerScalesLength(ftype: string, p: seq<seq<int>>, rows: nat, cols: nat, sx: nat, n: nat)
    requires |p| == rows + 1 && IsMatrix(p, cols + 1) && IsCodeType(ftype)
    requires InnerScales(ftype, p, rows, cols, sx, n).Ok?
    ensures |InnerScales(ftype, p, rows, cols, sx, n).value| == ScaleCount(rows, n) * (cols - sx - 2)
  {
    if n > 0 {
      var prev := InnerScales(ftype, p, rows, cols, sx, n - 1);
      var scale := ScaleVector(ftype, p, rows, cols, sx, n - 1);
      InnerScalesLength(ftype, p, rows, cols, sx, n - 1);
      ScaleVectorLength(ftype, p, rows, cols, sx, n - 1);
      LengthStep(|prev.value|, |scale.value|, ScaleCount(rows, n - 1), rows - (n - 1) - 2, ScaleCount(rows, n), cols - sx - 2);
    }
  }

  /** The outer loop of a code type over sx < n, each with the inner loop over sy < smy,
      raises exactly when the largest scale it reaches does. */
  lemma {:induction false} OuterScalesOutcome(ftype: string, p: seq<seq<int>>, rows: nat, cols: nat, n: nat, smy: nat)
    requires |p| == rows + 1 && IsMatrix(p, cols + 1) && IsCodeType(ftype)
    ensures var r := OuterScales(ftype, p, rows, cols, n, smy);
            && (r.Err? <==> n > 0 && smy > 0 && (rows - (smy - 1) < 2 || cols - (n - 1) < 2))
            && (r.Err? ==> r == Err(NegativeDimensions))
  {
    if n > 0 {
      OuterScalesOutcome(ftype, p, rows, cols, n - 1, smy);
      InnerScalesOutcome(ftype, p, rows, cols, n - 1, smy);
    }
  }

  /** When the outer loop of a code type succeeds, it gives one code per feature-map
      row and column, over all its scales. */
  lemma {:induction false} OuterScalesLength(ftype: string, p: seq<seq<int>>, rows: nat, cols: nat, n: nat, smy: nat)
    requires |p| == rows + 1 && IsMatrix(p, cols + 1) && IsCodeType(ftype)
    requires OuterScales(ftype, p, rows, cols, n, smy).Ok?
    ensures |OuterScales(ftype, p, rows, cols, n, smy).value| == ScaleCount(rows, smy) * ScaleCount(cols, n)
  {
    if n > 0 {
      var prev := OuterScales(ftype, p, rows, cols, n - 1, smy);
      var inner := InnerScales(ftype, p, rows, cols, n - 1, smy);
      OuterScalesLength(ftype, p, rows, cols, n - 1, smy);
      InnerScalesLength(ftype, p, rows, cols, n - 1, smy);
      LengthStepLeft(|prev.value|, |inner.value|, ScaleCount(cols, n - 1), cols - (n - 1) - 2, ScaleCount(cols, n), ScaleCount(rows, smy));
    }
  }

  lemma LengthStepLeft(l1: int, l2: int, a: int, b: int, c: int, k: int)
    requires l1 == k * a && l2 == k * b && c == a + b
    ensures l1 + l2 == k * c
  {
  }

  lemma LengthStep(l1: int, l2: int, a: int, b: int, c: int, k: int)
    requires l1 == a * k && l2 == b * k && c == a + b
    ensures l1 + l2 == c * k
  {
  }

  /** What get_features gives for each feature type: nothing when a scale bound is 0;
      for lbp, dlbp and mlbp, the exception for negative dimensions when the largest
      block leaves fewer than 2 block rows or columns, and otherwise a vector of
      ScaleCount(rows, smy) * ScaleCount(cols, smx) codes; for tlbp always an exception;
      for any other type the unbound feature_map. */
  lemma FeaturesOutcome(ftype: string, img: seq<seq<int>>, smx: nat, smy: nat)
    requires IsMatrix(img, Width(img))
    ensures var r := Features(ftype, img, smx, smy);
            var rows, cols := |img|, Width(img);
            && (smx == 0 || smy == 0 ==> r == Ok([]))
            && (smx > 0 && smy > 0 && IsCodeType(ftype) ==>
                  if rows < smy + 1 || cols < smx + 1 then r == Err(NegativeDimensions)
                  else r.Ok? && |r.value| == ScaleCount(rows, smy) * ScaleCount(cols, smx))
            && (smx > 0 && smy > 0 && ftype == "tlbp" ==>
                  r == if rows < 2 || cols < 2 then Err(NegativeDimensions) else Err(UnboundName("num_neighbours")))
            && (smx > 0 && smy > 0 && !IsCodeType(ftype) && ftype != "tlbp" ==>
                  r == Err(UnboundName("feature_map")))
  {
    var p, rows, cols := Padded(img), |img|, Width(img);
    if smx == 0 || smy == 0 {
      if smy == 0 {
        EmptyInnerLoops(ftype, p, rows, cols, smx);
      }
    } else if IsCodeType(ftype) {
      OuterScalesOutcome(ftype, p, rows, cols, smx, smy);
      if rows >= smy + 1 && cols >= smx + 1 {
        OuterScalesLength(ftype, p, rows, cols, smx, smy);
      }
    } else {
      FirstErrorDecides(ftype, p, rows, cols, smx, smy, 0, 0);
    }
  }

  lemma {:induction false} EmptyInnerLoops(ftype: string, p: seq<seq<int>>, rows: nat, cols: nat, n: nat)
    requires |p| == rows + 1 && IsMatrix(p, cols + 1)
    ensures OuterScales(ftype, p, rows, cols, n, 0) == Ok([])
  {
    if n > 0 {
      EmptyInnerLoops(ftype, p, rows, cols, n - 1);
      var e: seq<int> := [];
      assert e + e == e;
    }
  }

  /** Two maps of the same shape that agree everywhere are equal. */
  lemma MapsAgree(m: seq<seq<int>>, n: seq<seq<int>>, dimx: nat)
    requires |m| == |n| && IsMatrix(m, dimx) && IsMatrix(n, dimx)
    requires forall y, x :: 0 <= y < |m| && 0 <= x < dimx ==> m[y][x] == n[y][x]
    ensures m == n
  {
    forall y | 0 <= y < |m|
      ensures m[y] == n[y]
    {
    }
  }

  /** Number of passes over the neighbours: eight, or four directions for dlbp. */
  function Rounds(t: CodeType): nat
  {
    if t == DLBP then 4 else 8
  }

  /** The code of pixel (y, x) after the first `ind` passes. */
  function PartialCode(t: CodeType, b: seq<seq<int>>, y: nat, x: nat, ind: nat): int
    requires InWindow(b, y, x) && ind <= Rounds(t)
  {
    match t
    case LBP => PlaceValue(LbpBits(b, y, x)[..ind], 2)
    case DLBP => PlaceValue(DlbpSignBits(b, y, x)[..ind], 2) + PlaceValue(DlbpMagnitudeBits(b, y, x)[..ind], 4)
    case MLBP => PlaceValue(MlbpBits(b, y, x)[..ind], 2)
  }

  /** A dimy x dimx map holding every code after the first `ind` passes. */
  predicate PartialCodeMap(t: CodeType, m: seq<seq<int>>, b: seq<seq<int>>, dimy: nat, dimx: nat, ind: nat)
    requires |b| == dimy + 2 && IsMatrix(b, dimx + 2) && ind <= Rounds(t)
  {
    && |m| == dimy && IsMatrix(m, dimx)
    && forall y, x :: 0 <= y < dimy && 0 <= x < dimx ==> m[y][x] == PartialCode(t, b, y, x, ind)
  }

  /** Before any pass every code is 0. */
  lemma PartialCodeMapStart(t: CodeType, b: seq<seq<int>>, dimy: nat, dimx: nat)
    requires |b| == dimy + 2 && IsMatrix(b, dimx + 2)
    ensures PartialCodeMap(t, seq(dimy, y => seq(dimx, x => 0)), b, dimy, dimx, 0)
  {
  }

  /** After all passes the map is the code map. */
  lemma PartialCodeMapDone(t: CodeType, m: seq<seq<int>>, b: seq<seq<int>>, dimy: nat, dimx: nat)
    requires |b| == dimy + 2 && IsMatrix(b, dimx + 2)
    requires PartialCodeMap(t, m, b, dimy, dimx, Rounds(t))
    ensures m == CodeMap(t, b, dimy, dimx)
  {
    forall y, x | 0 <= y < dimy && 0 <= x < dimx
      ensures m[y][x] == CodeMap(t, b, dimy, dimx)[y][x]
    {
      match t
      case LBP => assert LbpBits(b, y, x)[..8] == LbpBits(b, y, x);
      case MLBP => assert MlbpBits(b, y, x)[..8] == MlbpBits(b, y, x);
      case DLBP =>
        assert DlbpSignBits(b, y, x)[..4] == DlbpSignBits(b, y, x);
        assert DlbpMagnitudeBits(b, y, x)[..4] == DlbpMagnitudeBits(b, y, x);
    }
    MapsAgree(m, CodeMap(t, b, dimy, dimx), dimx);
  }

  /** One lbp pass over the whole map: 2^ind is added wherever neighbour ind is at
      least the centre. */
  function LbpPassMap(m: seq<seq<int>>, b: seq<seq<int>>, dimy: nat, dimx: nat, ind: nat): (next: seq<seq<int>>)
    requires |b| == dimy + 2 && IsMatrix(b, dimx + 2) && |m| == dimy && IsMatrix(m, dimx) && ind < 8
    ensures |next| == dimy && IsMatrix(next, dimx)
  {
    var dy, dx := Coord[ind].0, Coord[ind].1;
    seq(dimy, y requires 0 <= y < dimy => seq(dimx, x requires 0 <= x < dimx =>
      m[y][x] + (if b[dy + y][dx + x] >= b[1 + y][1 + x] then Power(2, ind) else 0)))
  }

  lemma LbpPass(m: seq<seq<int>>, b: seq<seq<int>>, dimy: nat, dimx: nat, ind: nat)
    requires |b| == dimy + 2 && IsMatrix(b, dimx + 2) && ind < 8
    requires PartialCodeMap(LBP, m, b, dimy, dimx, ind)
    ensures PartialCodeMap(LBP, LbpPassMap(m, b, dimy, dimx, ind), b, dimy, dimx, ind + 1)
  {
    var next := LbpPassMap(m, b, dimy, dimx, ind);
    forall y, x | 0 <= y < dimy && 0 <= x < dimx
      ensures next[y][x] == PartialCode(LBP, b, y, x, ind + 1)
    {
      PlaceValuePrefixStep(LbpBits(b, y, x), ind, 2);
    }
  }

  /** One dlbp pass over the whole map, for the directions ind and ind + 4. */
  function DlbpPassMap(m: seq<seq<int>>, b: seq<seq<int>>, dimy: nat, dimx: nat, ind: nat): (next: seq<seq<int>>)
    requires |b| == dimy + 2 && IsMatrix(b, dimx + 2) && |m| == dimy && IsMatrix(m, dimx) && ind < 4
    ensures |next| == dimy && IsMatrix(next, dimx)
  {
    var dy, dx := Coord[ind].0, Coord[ind].1;
    var dy4, dx4 := Coord[ind + 4].0, Coord[ind + 4].1;
    seq(dimy, y requires 0 <= y < dimy => seq(dimx, x requires 0 <= x < dimx =>
      var pc, pi, pi4 := b[1 + y][1 + x], b[dy + y][dx + x], b[dy4 + y][dx4 + x];
      m[y][x] + (if SameSide(pi, pi4, pc) then Power(2, ind) else 0)
              + (if AtLeastAsFar(pi, pi4, pc) then Power(4, ind) else 0)))
  }

  lemma DlbpPass(m: seq<seq<int>>, b: seq<seq<int>>, dimy: nat, dimx: nat, ind: nat)
    requires |b| == dimy + 2 && IsMatrix(b, dimx + 2) && ind < 4
    requires PartialCodeMap(DLBP, m, b, dimy, dimx, ind)
    ensures PartialCodeMap(DLBP, DlbpPassMap(m, b, dimy, dimx, ind), b, dimy, dimx, ind + 1)
  {
    var next := DlbpPassMap(m, b, dimy, dimx, ind);
    forall y, x | 0 <= y < dimy && 0 <= x < dimx
      ensures next[y][x] == PartialCode(DLBP, b, y, x, ind + 1)
    {
      DlbpPixelPass(b, y, x, ind);
    }
  }

  lemma DlbpPixelPass(b: seq<seq<int>>, y: nat, x: nat, ind: nat)
    requires InWindow(b, y, x) && ind < 4
    ensures var pc, pi, pi4 := Centre(b, y, x), Neighbour(b, ind, y, x), Neighbour(b, ind + 4, y, x);
      PartialCode(DLBP, b, y, x, ind + 1) == PartialCode(DLBP, b, y, x, ind)
        + (if SameSide(pi, pi4, pc) then Power(2, ind) else 0)
        + (if AtLeastAsFar(pi, pi4, pc) then Power(4, ind) else 0)
  {
    PlaceValuePrefixStep(DlbpSignBits(b, y, x), ind, 2);
    PlaceValuePrefixStep(DlbpMagnitudeBits(b, y, x), ind, 4);
  }

  /** A dimy x dimx map holding, at every pixel, the sum of its first `ind` neighbours. */
  predicate PartialSums(total: seq<seq<int>>, b: seq<seq<int>>, dimy: nat, dimx: nat, ind: nat)
    requires |b| == dimy + 2 && IsMatrix(b, dimx + 2) && ind <= 8
  {
    && |total| == dimy && IsMatrix(total, dimx)
    && forall y, x :: 0 <= y < dimy && 0 <= x < dimx ==> total[y][x] == NeighbourSum(b, y, x, ind)
  }

  /** The neighbour at coord[ind] added to every pixel of the map. */
  function AddNeighbour(total: seq<seq<int>>, b: seq<seq<int>>, dimy: nat, dimx: nat, ind: nat): (next: seq<seq<int>>)
    requires |b| == dimy + 2 && IsMatrix(b, dimx + 2) && |total| == dimy && IsMatrix(total, dimx) && ind < 8
    ensures |next| == dimy && IsMatrix(next, dimx)
  {
    var dy, dx := Coord[ind].0, Coord[ind].1;
    seq(dimy, y requires 0 <= y < dimy => seq(dimx, x requires 0 <= x < dimx => total[y][x] + b[dy + y][dx + x]))
  }

  lemma AddNeighbourPass(total: seq<seq<int>>, b: seq<seq<int>>, dimy: nat, dimx: nat, ind: nat)
    requires |b| == dimy + 2 && IsMatrix(b, dimx + 2) && ind < 8
    requires PartialSums(total, b, dimy, dimx, ind)
    ensures PartialSums(AddNeighbour(total, b, dimy, dimx, ind), b, dimy, dimx, ind + 1)
  {
  }

  /** pm / num_neighbours: the map of totals divided by 8. */
  function MeanMap(total: seq<seq<int>>, dimx: nat): (mean: seq<seq<real>>)
    requires IsMatrix(total, dimx)
    ensures |mean| == |total| && IsMatrix(mean, dimx)
  {
    seq(|total|, y requires 0 <= y < |total| => seq(dimx, x requires 0 <= x < dimx => (total[y][x] as real) / 8.0))
  }

  /** One mlbp pass over the whole map: 2^ind is added wherever neighbour ind is at
      least the mean. */
  function MlbpPassMap(m: seq<seq<int>>, mean: seq<seq<real>>, b: seq<seq<int>>, dimy: nat, dimx: nat, ind: nat): (next: seq<seq<int>>)
    requires |b| == dimy + 2 && IsMatrix(b, dimx + 2) && |m| == dimy && IsMatrix(m, dimx) && ind < 8
    requires |mean| == dimy && IsMatrix(mean, dimx)
    ensures |next| == dimy && IsMatrix(next, dimx)
  {
    var dy, dx := Coord[ind].0, Coord[ind].1;
    seq(dimy, y requires 0 <= y < dimy => seq(dimx, x requires 0 <= x < dimx =>
      m[y][x] + (if (b[dy + y][dx + x] as real) >= mean[y][x] then Power(2, ind) else 0)))
  }

  lemma MlbpPass(m: seq<seq<int>>, total: seq<seq<int>>, b: seq<seq<int>>, dimy: nat, dimx: nat, ind: nat)
    requires |b| == dimy + 2 && IsMatrix(b, dimx + 2) && ind < 8
    requires PartialCodeMap(MLBP, m, b, dimy, dimx, ind)
    requires PartialSums(total, b, dimy, dimx, 8)
    ensures PartialCodeMap(MLBP, MlbpPassMap(m, MeanMap(total, dimx), b, dimy, dimx, ind), b, dimy, dimx, ind + 1)
  {
    var next := MlbpPassMap(m, MeanMap(total, dimx), b, dimy, dimx, ind);
    forall y, x | 0 <= y < dimy && 0 <= x < dimx
      ensures next[y][x] == PartialCode(MLBP, b, y, x, ind + 1)
    {
      var nb, sum := Neighbour(b, ind, y, x), NeighbourSum(b, y, x, 8);
      assert (nb as real) >= (sum as real) / 8.0 <==> 8 * nb >= sum;
      PlaceValuePrefixStep(MlbpBits(b, y, x), ind, 2);
    }
  }

  /** lbp_feature: the extractor of one feature type. */
  class LbpFeature {
    const ftype: string

    constructor(ftype: string)
      ensures this.ftype == ftype
    {
      this.ftype := ftype;
    }

    /** lbp: the map starts at zero and, for each neighbour ind, gains 2^ind wherever
        that neighbour is at least the centre. */
    method Lbp(dimx: int, dimy: int, blockSum: seq<seq<int>>, bcols: nat) returns (r: Result<seq<seq<int>>>)
      requires IsMatrix(blockSum, bcols) && dimy == |blockSum| - 2 && dimx == bcols - 2
      ensures r == CodeResult(LBP, blockSum, bcols)
    {
      if dimy < 0 || dimx < 0 {
        return Err(NegativeDimensions);
      }
      var featureMap := seq(dimy, y => seq(dimx, x => 0));
      PartialCodeMapStart(LBP, blockSum, dimy, dimx);
      for ind := 0 to 8
        invariant PartialCodeMap(LBP, featureMap, blockSum, dimy, dimx, ind)
      {
        LbpPass(featureMap, blockSum, dimy, dimx, ind);
        featureMap := LbpPassMap(featureMap, blockSum, dimy, dimx, ind);
      }
      PartialCodeMapDone(LBP, featureMap, blockSum, dimy, dimx);
      return Ok(featureMap);
    }

    /** dlbp: for each of the four directions ind, 2^ind where the neighbours ind and
        ind+4 lie on the same side of the centre, plus 4^ind where neighbour ind is at
        least as far from the centre as neighbour ind+4. */
    method Dlbp(dimx: int, dimy: int, blockSum: seq<seq<int>>, bcols: nat) returns (r: Result<seq<seq<int>>>)
      requires IsMatrix(blockSum, bcols) && dimy == |blockSum| - 2 && dimx == bcols - 2
      ensures r == CodeResult(DLBP, blockSum, bcols)
    {
      if dimy < 0 || dimx < 0 {
        return Err(NegativeDimensions);
      }
      var featureMap := seq(dimy, y => seq(dimx, x => 0));
      PartialCodeMapStart(DLBP, blockSum, dimy, dimx);
      for ind := 0 to 4
        invariant PartialCodeMap(DLBP, featureMap, blockSum, dimy, dimx, ind)
      {
        DlbpPass(featureMap, blockSum, dimy, dimx, ind);
        featureMap := DlbpPassMap(featureMap, blockSum, dimy, dimx, ind);
      }
      PartialCodeMapDone(DLBP, featureMap, blockSum, dimy, dimx);
      return Ok(featureMap);
    }

    /** mlbp: first the total of the eight neighbours, then its eighth as the mean, then,
        for each neighbour ind, 2^ind wherever that neighbour is at least the mean. */
    method Mlbp(dimx: int, dimy: int, blockSum: seq<seq<int>>, bcols: nat) returns (r: Result<seq<seq<int>>>)
      requires IsMatrix(blockSum, bcols) && dimy == |blockSum| - 2 && dimx == bcols - 2
      ensures r == CodeResult(MLBP, blockSum, bcols)
    {
      if dimy < 0 || dimx < 0 {
        return Err(NegativeDimensions);
      }
      var total := seq(dimy, y => seq(dimx, x => 0));
      for ind := 0 to 8
        invariant PartialSums(total, blockSum, dimy, dimx, ind)
      {
        AddNeighbourPass(total, blockSum, dimy, dimx, ind);
        total := AddNeighbour(total, blockSum, dimy, dimx, ind);
      }
      var mean := MeanMap(total, dimx);
      var featureMap := seq(dimy, y => seq(dimx, x => 0));
      PartialCodeMapStart(MLBP, blockSum, dimy, dimx);
      for ind := 0 to 8
        invariant PartialCodeMap(MLBP, featureMap, blockSum, dimy, dimx, ind)
      {
        MlbpPass(featureMap, total, blockSum, dimy, dimx, ind);
        featureMap := MlbpPassMap(featureMap, mean, blockSum, dimy, dimx, ind);
      }
      PartialCodeMapDone(MLBP, featureMap, blockSum, dimy, dimx);
      return Ok(featureMap);
    }

    /** get_features: for every block size, the block sums by inclusion and exclusion on
        the zero-padded integral image, the code map of the feature type, flattened and
        appended. Negative scale bounds give empty ranges. */
    method GetFeatures(img: seq<seq<int>>, scaleMaxX: int, scaleMaxY: int) returns (r: Result<seq<int>>)
      requires IsMatrix(img, Width(img))
      ensures r == Features(ftype, img, Max0(scaleMaxX), Max0(scaleMaxY))
    {
      var rows, cols := |img|, Width(img);
      var integralImg := Padded(img);
      var smx, smy := Max0(scaleMaxX), Max0(scaleMaxY);
      var featureVector: seq<int> := [];
      for scaleX := 0 to smx
        invariant OuterScales(ftype, integralImg, rows, cols, scaleX, smy) == Ok(featureVector)
      {
        var before := featureVector;
        assert featureVector[|before|..] == [];
        for scaleY := 0 to smy
          invariant |before| <= |featureVector| && featureVector[..|before|] == before
          invariant InnerScales(ftype, integralImg, rows, cols, scaleX, scaleY) == Ok(featureVector[|before|..])
        {
          var scale := ScaleFeatures(integralImg, rows, cols, scaleX, scaleY);
          if scale.Err? {
            FirstErrorDecides(ftype, integralImg, rows, cols, smx, smy, scaleX, scaleY);
            return scale;
          }
          InnerStep(ftype, integralImg, rows, cols, scaleX, scaleY, before, featureVector, scale.value);
          featureVector := featureVector + scale.value;
        }
        OuterStep(ftype, integralImg, rows, cols, scaleX, smy, before, featureVector);
      }
      return Ok(featureVector);
    }

    /** One scale of get_features: the block sums of block size (sy + 1) x (sx + 1), the
        feature map of the type, and that map flattened column by column. */
    method ScaleFeatures(integralImg: seq<seq<int>>, rows: nat, cols: nat, sx: nat, sy: nat) returns (v: Result<seq<int>>)
      requires |integralImg| == rows + 1 && IsMatrix(integralImg, cols + 1)
      ensures v == ScaleVector(ftype, integralImg, rows, cols, sx, sy)
    {
      var blockSum := BlockSums(integralImg, rows, cols, sx, sy);
      var bcols := Max0(cols - sx);
      var featureMap := FeatureMap(blockSum, bcols);
      if featureMap.Err? {
        return Err(featureMap.error);
      }
      return Ok(FlattenColumnMajor(featureMap.value, bcols - 2));
    }

    /** The feature map of one scale for the feature type, dispatched in the order lbp,
        tlbp, dlbp, mlbp; any other type leaves the map unbound. */
    method FeatureMap(blockSum: seq<seq<int>>, bcols: nat) returns (featureMap: Result<seq<seq<int>>>)
      requires IsMatrix(blockSum, bcols)
      ensures featureMap == ScaleMap(ftype, blockSum, bcols)
    {
      var dimy, dimx := |blockSum| - 2, bcols - 2;
      if ftype == "lbp" {
        featureMap := Lbp(dimx, dimy, blockSum, bcols);
      } else if ftype == "tlbp" {
        featureMap := Tlbp(dimx, dimy);
      } else if ftype == "dlbp" {
        featureMap := Dlbp(dimx, dimy, blockSum, bcols);
      } else if ftype == "mlbp" {
        featureMap := Mlbp(dimx, dimy, blockSum, bcols);
      } else {
        featureMap := Err(UnboundName("feature_map"));
      }
    }

    /** get_feature_number: the length of the features of an all-zero dimy x dimx image.
        The call hands scale_y over as scale_max_x and scale_x as scale_max_y. */
    function GetFeatureNumber(dimy: int, dimx: int, scaleY: int, scaleX: int): (r: Result<nat>)
      ensures dimy < 0 || dimx < 0 ==> r == Err(NegativeDimensions)
      ensures dimy >= 0 && dimx >= 0 && (scaleY <= 0 || scaleX <= 0) ==> r == Ok(0)
    {
      if dimy < 0 || dimx < 0 then Err(NegativeDimensions)
      else Length(Features(ftype, Zeros(dimy, dimx), Max0(scaleY), Max0(scaleX)))
    }

    /** The count with scale_y bounding the block heights and scale_x the block widths,
        as the parameters are documented. */
    function GetFeatureNumberIntended(dimy: int, dimx: int, scaleY: int, scaleX: int): (r: Result<nat>)
      ensures dimy < 0 || dimx < 0 ==> r == Err(NegativeDimensions)
      ensures dimy >= 0 && dimx >= 0 && (scaleY <= 0 || scaleX <= 0) ==> r == Ok(0)
    {
      if dimy < 0 || dimx < 0 then Err(NegativeDimensions)
      else Length(Features(ftype, Zeros(dimy, dimx), Max0(scaleX), Max0(scaleY)))
    }
  }

  /** numpy.zeros([dimy, dimx]) */
  function Zeros(dimy: nat, dimx: nat): (img: seq<seq<int>>)
    ensures |img| == dimy && IsMatrix(img, dimx) && IsMatrix(img, Width(img))
  {
    seq(dimy, y => seq(dimx, x => 0))
  }

  /** feature_vector.shape[0], or the exception raised on the way. */
  function Length(r: Result<seq<int>>): Result<nat>
  {
    match r
    case Ok(v) => Ok(|v|)
    case Err(e) => Err(e)
  }

  /** get_feature_number as written, for lbp, dlbp and mlbp: scale_y bounds the block
      widths (along the dimx columns) and scale_x the block heights (along the dimy
      rows). */
  lemma FeatureNumberAsWritten(f: LbpFeature, dimy: int, dimx: int, scaleY: int, scaleX: int)
    requires IsCodeType(f.ftype)
    ensures var r := f.GetFeatureNumber(dimy, dimx, scaleY, scaleX);
            var widths, heights := Max0(scaleY), Max0(scaleX);
            if dimy < 0 || dimx < 0 then r == Err(NegativeDimensions)
            else if widths == 0 || heights == 0 then r == Ok(0)
            else if dimy < heights + 1 || dimx < widths + 1 then r == Err(NegativeDimensions)
            else r.Ok? && r.value == ScaleCount(dimy, heights) * ScaleCount(dimx, widths)
  {
    if dimy >= 0 && dimx >= 0 {
      FeaturesOutcome(f.ftype, Zeros(dimy, dimx), Max0(scaleY), Max0(scaleX));
    }
  }

  /** The corrected count, for lbp, dlbp and mlbp: scale_y bounds the block heights and
      scale_x the block widths. */
  lemma FeatureNumberIntended(f: LbpFeature, dimy: int, dimx: int, scaleY: int, scaleX: int)
    requires IsCodeType(f.ftype)
    ensures var r := f.GetFeatureNumberIntended(dimy, dimx, scaleY, scaleX);
            var heights, widths := Max0(scaleY), Max0(scaleX);
            if dimy < 0 || dimx < 0 then r == Err(NegativeDimensions)
            else if widths == 0 || heights == 0 then r == Ok(0)
            else if dimy < heights + 1 || dimx < widths + 1 then r == Err(NegativeDimensions)
            else r.Ok? && r.value == ScaleCount(dimy, heights) * ScaleCount(dimx, widths)
  {
    if dimy >= 0 && dimx >= 0 {
      FeaturesOutcome(f.ftype, Zeros(dimy, dimx), Max0(scaleX), Max0(scaleY));
    }
  }

  /** A 5 x 10 image with blocks up to 1 row high and 3 columns wide has
      3 * (8 + 7 + 6) = 63 lbp codes, but get_feature_number counts the features of
      blocks up to 3 rows high and 1 column wide: (3 + 2 + 1) * 8 = 48. */
  lemma FeatureNumberSwapsScales(f: LbpFeature)
    requires f.ftype == "lbp"
    ensures f.GetFeatureNumber(5, 10, 1, 3) == Ok(48)
    ensures f.GetFeatureNumberIntended(5, 10, 1, 3) == Ok(63)
  {
    FeatureNumberAsWritten(f, 5, 10, 1, 3);
    FeatureNumberIntended(f, 5, 10, 1, 3);
  }
}
