/** The look-up-table weak trainer. Every feature is an integer code per sample; for one
    output the histogram of the loss gradient over the codes is summed bucket by bucket,
    a feature is scored by minus the total absolute histogram mass, and the table entry
    of a code is -1 where the chosen feature's histogram is not positive. */
module LutTrainers {
  import opened NumpyOps

  /** sum(loss_grado[fval == h]): the gradient mass of the samples whose code is h. */
  function BucketSum(grad: seq<real>, codes: seq<int>, h: int): (r: real)
    requires |grad| == |codes|
    ensures h !in codes ==> r == 0.0
  {
    if |grad| == 0 then 0.0
    else
      var n := |grad| - 1;
      BucketSum(grad[..n], codes[..n], h) + (if codes[n] == h then grad[n] else 0.0)
  }

  /** compute_hgrad: one bucket sum for every table entry 0 .. numEntries-1. */
  function Hist(grad: seq<real>, codes: seq<int>, numEntries: nat): (hist: seq<real>)
    requires |grad| == |codes|
    ensures |hist| == numEntries
  {
    seq(numEntries, h requires 0 <= h < numEntries => BucketSum(grad, codes, h))
  }

  /** The gradient mass of the samples whose code is a table entry. */
  function InRangeMass(grad: seq<real>, codes: seq<int>, numEntries: nat): real
    requires |grad| == |codes|
  {
    if |grad| == 0 then 0.0
    else
      var n := |grad| - 1;
      InRangeMass(grad[..n], codes[..n], numEntries)
        + (if 0 <= codes[n] < numEntries then grad[n] else 0.0)
  }

  /** Adding one sample adds its gradient to the bucket of its code, and to no bucket
      when the code is not a table entry. */
  lemma HistStep(grad: seq<real>, codes: seq<int>, numEntries: nat)
    requires 0 < |grad| == |codes|
    ensures var n := |grad| - 1;
            var prev := Hist(grad[..n], codes[..n], numEntries);
            Hist(grad, codes, numEntries) ==
              if 0 <= codes[n] < numEntries then prev[codes[n] := prev[codes[n]] + grad[n]]
              else prev
  {
  }

  /** The histogram holds exactly the mass of the in-range samples: every such sample
      lands in one bucket, and the others in none. */
  lemma {:induction false} HistTotal(grad: seq<real>, codes: seq<int>, numEntries: nat)
    requires |grad| == |codes|
    ensures Sum(Hist(grad, codes, numEntries)) == InRangeMass(grad, codes, numEntries)
  {
    if |grad| == 0 {
      SumOfZeros(Hist(grad, codes, numEntries));
    } else {
      var n := |grad| - 1;
      var prev := Hist(grad[..n], codes[..n], numEntries);
      HistTotal(grad[..n], codes[..n], numEntries);
      HistStep(grad, codes, numEntries);
      if 0 <= codes[n] < numEntries {
        SumUpdate(prev, codes[n], prev[codes[n]] + grad[n]);
      }
    }
  }

  /** A sample whose code is not a table entry changes no bucket. */
  lemma HistIgnoresOutOfRange(grad: seq<real>, codes: seq<int>, numEntries: nat, x: real, c: int)
    requires |grad| == |codes|
    requires c < 0 || c >= numEntries
    ensures Hist(grad + [x], codes + [c], numEntries) == Hist(grad, codes, numEntries)
  {
    assert (grad + [x])[..|grad|] == grad;
    assert (codes + [c])[..|codes|] == codes;
    HistStep(grad + [x], codes + [c], numEntries);
  }

  /** -sum(abs(hist_grad)): the loss of one feature for one output. */
  function Score(grad: seq<real>, codes: seq<int>, numEntries: nat): (loss: real)
    requires |grad| == |codes|
    ensures loss <= 0.0
  {
    var absHist := AbsAll(Hist(grad, codes, numEntries));
    SumNonNegative(absHist);
    -Sum(absHist)
  }

  /** sum_loss of compute_fgrad: row f, column k is the loss of feature f for output k. */
  function SumLoss(fea: seq<seq<int>>, lossGrad: seq<seq<real>>, numEntries: nat, numOp: nat): (sumLoss: seq<seq<real>>)
    requires |fea| == |lossGrad|
    requires IsMatrix(fea, Width(fea)) && IsMatrix(lossGrad, numOp)
    ensures IsMatrix(sumLoss, numOp) && |sumLoss| == Width(fea)
  {
    seq(Width(fea), f requires 0 <= f < Width(fea) =>
      seq(numOp, k requires 0 <= k < numOp =>
        Score(Column(lossGrad, k), Column(fea, f), numEntries)))
  }

  /** 'indep' selection: for every output, the first feature of least loss. */
  function IndepSelection(sumLoss: seq<seq<real>>, numOp: nat): (sel: seq<nat>)
    requires IsMatrix(sumLoss, numOp)
    requires |sumLoss| > 0 || numOp == 0
    ensures |sel| == numOp
    ensures forall k :: 0 <= k < numOp ==> sel[k] < |sumLoss|
  {
    seq(numOp, k requires 0 <= k < numOp => FirstArgMin(Column(sumLoss, k)))
  }

  /** accum_loss of 'shared' selection: the loss of each feature summed over the outputs. */
  function RowSums(sumLoss: seq<seq<real>>): (sums: seq<real>)
    ensures |sums| == |sumLoss|
  {
    seq(|sumLoss|, f requires 0 <= f < |sumLoss| => Sum(sumLoss[f]))
  }

  /** 'shared' selection: the first feature of least loss summed over the outputs. */
  function SharedSelection(sumLoss: seq<seq<real>>): (f: nat)
    requires |sumLoss| > 0
    ensures f < |sumLoss|
  {
    FirstArgMin(RowSums(sumLoss))
  }

  /** The total loss over the outputs of one chosen feature per output. */
  function SelectedLoss(sumLoss: seq<seq<real>>, numOp: nat, sel: seq<nat>): real
    requires IsMatrix(sumLoss, numOp) && |sel| == numOp
    requires forall k :: 0 <= k < numOp ==> sel[k] < |sumLoss|
  {
    Sum(seq(numOp, k requires 0 <= k < numOp => sumLoss[sel[k]][k]))
  }

  /** Choosing a feature per output loses no more, in total, than the best single feature
      shared by all outputs. */
  lemma {:induction false} IndepNoWorseThanShared(sumLoss: seq<seq<real>>, numOp: nat)
    requires IsMatrix(sumLoss, numOp) && |sumLoss| > 0
    ensures SelectedLoss(sumLoss, numOp, IndepSelection(sumLoss, numOp))
            <= Sum(sumLoss[SharedSelection(sumLoss)])
  {
    var indep := IndepSelection(sumLoss, numOp);
    var s := SharedSelection(sumLoss);
    var mine := seq(numOp, k requires 0 <= k < numOp => sumLoss[indep[k]][k]);
    var shared := seq(numOp, k requires 0 <= k < numOp => sumLoss[s][k]);
    forall k | 0 <= k < numOp
      ensures mine[k] <= shared[k]
    {
      assert Column(sumLoss, k)[s] == sumLoss[s][k];
    }
    SumMonotone(mine, shared);
    assert shared == sumLoss[s];
  }

  /** With one output the two selection modes choose the same feature. */
  lemma SingleOutputModesAgree(sumLoss: seq<seq<real>>)
    requires IsMatrix(sumLoss, 1) && |sumLoss| > 0
    ensures IndepSelection(sumLoss, 1) == [SharedSelection(sumLoss)]
  {
    forall f | 0 <= f < |sumLoss|
      ensures RowSums(sumLoss)[f] == Column(sumLoss, 0)[f]
    {
      assert |sumLoss[f]| == 1;
      assert Sum(sumLoss[f]) == Sum(sumLoss[f][..0]) + sumLoss[f][0];
    }
    assert RowSums(sumLoss) == Column(sumLoss, 0);
  }

  /** m[:, j] = col */
  method SetColumn(m: array2<real>, j: nat, col: seq<real>)
    requires j < m.Length1 && |col| == m.Length0
    modifies m
    ensures forall e, k :: 0 <= e < m.Length0 && 0 <= k < m.Length1 ==>
      m[e, k] == if k == j then col[e] else old(m[e, k])
  {
    forall e | 0 <= e < m.Length0 {
      m[e, j] := col[e];
    }
  }

  class LutTrainer {
    const numEntries: nat
    const selectionType: string
    /** numEntries x numOp table of +1/-1, updated in place. */
    const luts: array2<int>
    /** The feature index used by each output: 'indep' writes into this array, 'shared'
        binds a new one, so a caller holding the old array sees only the former. */
    var selectedIndices: array<nat>

    ghost predicate Valid()
      reads this, luts
    {
      && luts.Length0 == numEntries
      && selectedIndices.Length == luts.Length1
      && forall e, k :: 0 <= e < luts.Length0 && 0 <= k < luts.Length1 ==>
           luts[e, k] == 1 || luts[e, k] == -1
    }

    /** A table of +1 everywhere, and feature 0 for every output. */
    constructor (numEntries: nat, selectionType: string, numOp: nat)
      ensures this.numEntries == numEntries && this.selectionType == selectionType
      ensures fresh(luts) && luts.Length0 == numEntries && luts.Length1 == numOp
      ensures forall e, k :: 0 <= e < numEntries && 0 <= k < numOp ==> luts[e, k] == 1
      ensures fresh(selectedIndices) && selectedIndices[..] == seq(numOp, _ => 0)
      ensures Valid()
    {
      this.numEntries := numEntries;
      this.selectionType := selectionType;
      luts := new int[numEntries, numOp]((_, _) => 1);
      selectedIndices := new nat[numOp](_ => 0);
    }

    /** compute_hgrad: the gradient mass of every table entry for one feature. */
    method ComputeHGrad(lossGradO: seq<real>, fval: seq<int>) returns (histGrad: seq<real>)
      requires |lossGradO| == |fval|
      ensures histGrad == Hist(lossGradO, fval, numEntries)
    {
      histGrad := seq(numEntries, _ => 0.0);
      for hi := 0 to numEntries
        invariant |histGrad| == numEntries
        invariant forall h :: 0 <= h < hi ==> histGrad[h] == BucketSum(lossGradO, fval, h)
      {
        histGrad := histGrad[hi := BucketSum(lossGradO, fval, hi)];
      }
    }

    /** compute_fgrad: the loss of every feature for every output. The source reads the
        widths from the first rows, so it needs at least one sample. */
    method ComputeFGrad(lossGrad: seq<seq<real>>, fea: seq<seq<int>>) returns (sumLoss: seq<seq<real>>)
      requires 0 < |fea| == |lossGrad|
      requires IsMatrix(fea, Width(fea)) && IsMatrix(lossGrad, Width(lossGrad))
      ensures sumLoss == SumLoss(fea, lossGrad, numEntries, Width(lossGrad))
    {
      var numFea, numOp := |fea[0]|, |lossGrad[0]|;
      sumLoss := [];
      for fi := 0 to numFea
        invariant |sumLoss| == fi
        invariant forall f :: 0 <= f < fi ==> sumLoss[f] == SumLoss(fea, lossGrad, numEntries, numOp)[f]
      {
        var row := [];
        for oi := 0 to numOp
          invariant |row| == oi
          invariant forall k :: 0 <= k < oi ==> row[k] == Score(Column(lossGrad, k), Column(fea, fi), numEntries)
        {
          var histGrad := ComputeHGrad(Column(lossGrad, oi), Column(fea, fi));
          row := row + [-Sum(AbsAll(histGrad))];
        }
        sumLoss := sumLoss + [row];
      }
    }

    /** The selection compute_weak_trainer makes, or the old one for a selection type it
        does not know. */
    ghost function Selection(sumLoss: seq<seq<real>>, numOp: nat, previous: seq<nat>): (sel: seq<nat>)
      requires IsMatrix(sumLoss, numOp) && |previous| == numOp
      requires selectionType == "indep" ==> |sumLoss| > 0 || numOp == 0
      requires selectionType == "shared" ==> |sumLoss| > 0
      reads this
      ensures |sel| == numOp
      ensures selectionType == "indep" || selectionType == "shared" ==>
        forall k :: 0 <= k < numOp ==> sel[k] < |sumLoss|
      ensures selectionType == "shared" ==> forall k, l :: 0 <= k < l < numOp ==> sel[k] == sel[l]
    {
      if selectionType == "indep" then IndepSelection(sumLoss, numOp)
      else if selectionType == "shared" then seq(numOp, _ => SharedSelection(sumLoss))
      else previous
    }

    /** Fits the table to the gradient and returns the trainer itself. It is null where
        NumPy raises, with nothing changed: with no samples (compute_fgrad reads fea[0]),
        or with no features under 'shared' or under 'indep' with outputs (argmin of an
        empty array). The histogram of each output's selected feature decides the table:
        a cell whose histogram value is not positive becomes -1, any other cell keeps its
        value, so a cell is never set back to +1. An unknown selection type fits nothing
        and turns the whole table to -1. 'indep' updates the array of selected indices in
        place; 'shared' replaces it by a new array. */
    method ComputeWeakTrainer(fea: seq<seq<int>>, lossGrad: seq<seq<real>>) returns (trained: LutTrainer?)
      requires Valid()
      requires |fea| == |lossGrad|
      requires IsMatrix(fea, Width(fea)) && IsMatrix(lossGrad, luts.Length1)
      modifies this, luts, selectedIndices
      ensures Valid()
      ensures trained == null <==>
        || |fea| == 0
        || (Width(fea) == 0 && selectionType == "indep" && luts.Length1 > 0)
        || (Width(fea) == 0 && selectionType == "shared")
      ensures trained == null ==>
        selectedIndices == old(selectedIndices) && selectedIndices[..] == old(selectedIndices[..]) &&
        forall e, k :: 0 <= e < luts.Length0 && 0 <= k < luts.Length1 ==> luts[e, k] == old(luts[e, k])
      ensures trained != null ==>
        && trained == this
        && selectedIndices[..] == Selection(SumLoss(fea, lossGrad, numEntries, luts.Length1), luts.Length1, old(selectedIndices[..]))
      ensures trained != null && selectionType != "shared" ==> selectedIndices == old(selectedIndices)
      ensures trained != null && selectionType == "shared" ==> fresh(selectedIndices)
      ensures trained != null && (selectionType == "indep" || selectionType == "shared") ==>
        forall e, k :: 0 <= e < luts.Length0 && 0 <= k < luts.Length1 ==>
          selectedIndices[k] < Width(fea) &&
          luts[e, k] == if Hist(Column(lossGrad, k), Column(fea, selectedIndices[k]), numEntries)[e] <= 0.0 then -1 else old(luts[e, k])
      ensures trained != null && selectionType != "indep" && selectionType != "shared" ==>
        forall e, k :: 0 <= e < luts.Length0 && 0 <= k < luts.Length1 ==> luts[e, k] == -1
      ensures forall e, k :: 0 <= e < luts.Length0 && 0 <= k < luts.Length1 && old(luts[e, k]) == -1 ==> luts[e, k] == -1
    {
      var numOp := luts.Length1;
      if |fea| == 0 {
        return null;
      }
      var numFea := Width(fea);
      var feaGrad := new real[numEntries, numOp]((_, _) => 0.0);
      var sumLoss := ComputeFGrad(lossGrad, fea);
      if selectionType == "indep" {
        if numFea == 0 && numOp > 0 {
          return null;
        }
        FitIndep(fea, lossGrad, sumLoss, feaGrad);
      } else if selectionType == "shared" {
        if numFea == 0 {
          return null;
        }
        FitShared(fea, lossGrad, sumLoss, feaGrad);
      }
      forall e, k | 0 <= e < numEntries && 0 <= k < numOp && feaGrad[e, k] <= 0.0 {
        luts[e, k] := -1;
      }
      return this;
    }

    /** The 'indep' branch: every output takes the first feature of least loss for it,
        and its column of fea_grad is that feature's histogram. */
    method FitIndep(fea: seq<seq<int>>, lossGrad: seq<seq<real>>, sumLoss: seq<seq<real>>, feaGrad: array2<real>)
      requires |fea| == |lossGrad| && IsMatrix(fea, Width(fea)) && IsMatrix(lossGrad, feaGrad.Length1)
      requires sumLoss == SumLoss(fea, lossGrad, numEntries, feaGrad.Length1)
      requires Width(fea) > 0 || feaGrad.Length1 == 0
      requires feaGrad.Length0 == numEntries && selectedIndices.Length == feaGrad.Length1
      modifies selectedIndices, feaGrad
      ensures selectedIndices[..] == IndepSelection(sumLoss, feaGrad.Length1)
      ensures forall e, k :: 0 <= e < numEntries && 0 <= k < feaGrad.Length1 ==>
        feaGrad[e, k] == Hist(Column(lossGrad, k), Column(fea, selectedIndices[k]), numEntries)[e]
    {
      var numOp := feaGrad.Length1;
      ghost var sel := IndepSelection(sumLoss, numOp);
      ghost var hists := seq(numOp, k requires 0 <= k < numOp =>
        Hist(Column(lossGrad, k), Column(fea, sel[k]), numEntries));
      for oi := 0 to numOp
        invariant forall k :: 0 <= k < oi ==> selectedIndices[k] == sel[k]
        invariant forall e, k :: 0 <= e < numEntries && 0 <= k < oi ==> feaGrad[e, k] == hists[k][e]
      {
        var currId := FirstArgMin(Column(sumLoss, oi));
        assert currId == sel[oi];
        var histGrad := ComputeHGrad(Column(lossGrad, oi), Column(fea, currId));
        SetColumn(feaGrad, oi, histGrad);
        selectedIndices[oi] := currId;
      }
    }

    /** The 'shared' branch: all outputs take the first feature of least loss summed over
        the outputs, and every column of fea_grad is that feature's histogram. */
    method FitShared(fea: seq<seq<int>>, lossGrad: seq<seq<real>>, sumLoss: seq<seq<real>>, feaGrad: array2<real>)
      requires |fea| == |lossGrad| && IsMatrix(fea, Width(fea)) && IsMatrix(lossGrad, feaGrad.Length1)
      requires sumLoss == SumLoss(fea, lossGrad, numEntries, feaGrad.Length1)
      requires Width(fea) > 0
      requires feaGrad.Length0 == numEntries
      modifies this, feaGrad
      ensures fresh(selectedIndices) && selectedIndices[..] == seq(feaGrad.Length1, _ => SharedSelection(sumLoss))
      ensures forall e, k :: 0 <= e < numEntries && 0 <= k < feaGrad.Length1 ==>
        feaGrad[e, k] == Hist(Column(lossGrad, k), Column(fea, selectedIndices[k]), numEntries)[e]
    {
      var numOp := feaGrad.Length1;
      var accumLoss := RowSums(sumLoss);
      var selectedFindex := FirstArgMin(accumLoss);
      selectedIndices := new nat[numOp](_ => selectedFindex);
      for oi := 0 to numOp
        invariant fresh(selectedIndices) && selectedIndices[..] == seq(numOp, _ => selectedFindex)
        invariant forall e, k :: 0 <= e < numEntries && 0 <= k < oi ==>
          feaGrad[e, k] == Hist(Column(lossGrad, k), Column(fea, selectedFindex), numEntries)[e]
      {
        var histGrad := ComputeHGrad(Column(lossGrad, oi), Column(fea, selectedFindex));
        forall e | 0 <= e < numEntries {
          feaGrad[e, oi] := histGrad[e];
        }
      }
    }

    /** Scores every sample for every output by looking up the code of the output's
        selected feature in the output's column of the table. */
    method GetWeakScores(fset: seq<seq<int>>) returns (weakScores: seq<seq<int>>)
      requires Valid() && numEntries > 0
      requires forall n, k :: 0 <= n < |fset| && 0 <= k < selectedIndices.Length ==>
        selectedIndices[k] < |fset[n]| && 0 <= fset[n][selectedIndices[k]] < numEntries
      ensures |weakScores| == |fset|
      ensures forall n :: 0 <= n < |fset| ==> |weakScores[n]| == luts.Length1
      ensures forall n, k :: 0 <= n < |fset| && 0 <= k < luts.Length1 ==>
        weakScores[n][k] == luts[fset[n][selectedIndices[k]], k]
      ensures forall n, k :: 0 <= n < |fset| && 0 <= k < luts.Length1 ==>
        weakScores[n][k] == 1 || weakScores[n][k] == -1
    {
      var sel := selectedIndices[..];
      weakScores := LookUp(fset, sel);
      assert Valid();
      forall n, k | 0 <= n < |fset| && 0 <= k < luts.Length1
        ensures weakScores[n][k] == luts[fset[n][selectedIndices[k]], k]
      {
        assert sel[k] == selectedIndices[k];
      }
      forall n, k | 0 <= n < |fset| && 0 <= k < luts.Length1
        ensures weakScores[n][k] == 1 || weakScores[n][k] == -1
      {
        var e := fset[n][sel[k]];
        assert 0 <= e < luts.Length0 && weakScores[n][k] == luts[e, k];
      }
    }

    /** The lookup loop of get_weak_scores, for the selected features `sel`. */
    method LookUp(fset: seq<seq<int>>, sel: seq<nat>) returns (weakScores: seq<seq<int>>)
      requires |sel| == luts.Length1
      requires forall n, k :: 0 <= n < |fset| && 0 <= k < |sel| ==>
        sel[k] < |fset[n]| && 0 <= fset[n][sel[k]] < luts.Length0
      ensures |weakScores| == |fset|
      ensures forall n :: 0 <= n < |fset| ==> |weakScores[n]| == |sel|
      ensures forall n, k :: 0 <= n < |fset| && 0 <= k < |sel| ==>
        weakScores[n][k] == luts[fset[n][sel[k]], k]
    {
      var numSamp, numOp := |fset|, |sel|;
      var scores := new int[numSamp, numOp]((_, _) => 0);
      for oi := 0 to numOp
        modifies scores
        invariant forall n, k :: 0 <= n < numSamp && 0 <= k < oi ==>
          scores[n, k] == luts[fset[n][sel[k]], k]
      {
        forall n | 0 <= n < numSamp {
          scores[n, oi] := luts[fset[n][sel[oi]], oi];
        }
      }
      weakScores := seq(numSamp, n requires 0 <= n < numSamp reads scores =>
        seq(numOp, k requires 0 <= k < numOp reads scores => scores[n, k]));
      forall n, k | 0 <= n < numSamp && 0 <= k < numOp
        ensures weakScores[n][k] == luts[fset[n][sel[k]], k]
      {
        assert weakScores[n][k] == scores[n, k];
      }
    }
  }
}
