/** The stump weak trainer: for every feature, a threshold and a polarity are fitted to
    the negated loss gradient by a search over the feature's sorted values; the feature
    with the largest gain is kept. Gradients and feature values are `real`. */
module StumpTrainers {
  import opened NumpyOps

  /** What compute_thresh returns for one feature: (polarity, threshold, gain_max). */
  datatype ThresholdFit = ThresholdFit(polarity: int, threshold: real, gain: real)

  /** The weights -loss_grad, rearranged into the sorting order of the feature. */
  function SortedWeights(grad: seq<real>, order: seq<nat>): (w: seq<real>)
    requires forall k :: 0 <= k < |order| ==> order[k] < |grad|
    ensures |w| == |order|
    ensures forall k :: 0 <= k < |order| ==> w[k] == -grad[order[k]]
  {
    seq(|order|, k requires 0 <= k < |order| => -grad[order[k]])
  }

  /** The sorted weights are the negated gradient rearranged, so they have its total. */
  lemma {:induction false} SortedWeightsSum(grad: seq<real>, order: seq<nat>)
    requires |order| == |grad| && Distinct(order)
    requires forall k :: 0 <= k < |order| ==> order[k] < |grad|
    ensures Sum(SortedWeights(grad, order)) == -Sum(grad)
  {
    var neg := seq(|grad|, i requires 0 <= i < |grad| => -grad[i]);
    var w, p := SortedWeights(grad, order), Permuted(neg, order);
    assert |w| == |p|;
    forall k | 0 <= k < |w|
      ensures w[k] == p[k]
    {
      assert p[k] == neg[order[k]];
    }
    assert w == p;
    SumPermuted(neg, order);
    SumNegated(grad);
  }

  /** grad_sum, the last running total of the sorted weights, is the total of the
      negated gradient whatever sorting order argsort gave: only the gains between
      the ends depend on the order among equal values. */
  lemma {:induction false} SortedWeightsTotal(fea: seq<real>, grad: seq<real>, order: seq<nat>)
    requires 0 < |fea| == |grad| && IsSortingOrder(fea, order)
    ensures CumSum(SortedWeights(grad, order))[|grad| - 1] == -Sum(grad)
  {
    var w := SortedWeights(grad, order);
    SortedWeightsSum(grad, order);
    CumSumIsPrefixSums(w);
    assert w[..|grad|] == w;
  }

  /** The feature values in sorting order. */
  function SortedValues(fea: seq<real>, order: seq<nat>): seq<real>
    requires forall k :: 0 <= k < |order| ==> order[k] < |fea|
  {
    seq(|order|, k requires 0 <= k < |order| => fea[order[k]])
  }

  /** gain = grad_sum - grad_cs: the total weight minus the running total. */
  function Gains(w: seq<real>): (g: seq<real>)
    requires |w| > 0
    ensures |g| == |w|
  {
    var cs := CumSum(w);
    seq(|w|, i requires 0 <= i < |w| => cs[|w| - 1] - cs[i])
  }

  /** The gain of splitting after sorted position i is the total weight of the samples
      ranked after i; the last position gains nothing. */
  lemma GainsAreSuffixSums(w: seq<real>)
    requires |w| > 0
    ensures forall i :: 0 <= i < |w| ==> Gains(w)[i] == Sum(w[i + 1..])
    ensures Gains(w)[|w| - 1] == 0.0
  {
    var cs := CumSum(w);
    CumSumIsPrefixSums(w);
    assert w[..|w|] == w;
    forall i | 0 <= i < |w|
      ensures Gains(w)[i] == Sum(w[i + 1..])
    {
      assert w[..i + 1] + w[i + 1..] == w;
      SumConcat(w[..i + 1], w[i + 1..]);
    }
  }

  /** The sorted position chosen by compute_thresh: the first one of largest |gain|. */
  function OptIndex(grad: seq<real>, order: seq<nat>): (opt: nat)
    requires 0 < |order| == |grad|
    requires forall k :: 0 <= k < |order| ==> order[k] < |grad|
    ensures opt < |grad|
    ensures opt == |grad| - 1 <==> |grad| == 1
  {
    var g := Gains(SortedWeights(grad, order));
    var k := FirstArgMax(AbsAll(g));
    assert AbsAll(g)[|grad| - 1] == 0.0;
    k
  }

  /** The threshold for split position opt of the sorted values: the midpoint with the
      next value, or the value itself at the last position. */
  function SplitThreshold(sorted: seq<real>, opt: nat): (th: real)
    requires opt < |sorted|
    requires forall k, l :: 0 <= k < l < |sorted| ==> sorted[k] <= sorted[l]
    ensures forall k :: 0 <= k <= opt ==> sorted[k] <= th
    ensures forall k :: opt < k < |sorted| ==> th <= sorted[k]
  {
    if opt == |sorted| - 1 then sorted[opt] else (sorted[opt] + sorted[opt + 1]) * 0.5
  }

  /** compute_thresh for one feature. `order` is the result of numpy.argsort(fea); any
      order that sorts the values is admitted, since NumPy leaves ties unspecified. */
  function ComputeThresh(fea: seq<real>, grad: seq<real>, order: seq<nat>): (t: ThresholdFit)
    requires 0 < |fea| == |grad|
    requires IsSortingOrder(fea, order)
    ensures t.polarity == -1 || t.polarity == 1
    ensures t.gain >= 0.0
  {
    var gain := Gains(SortedWeights(grad, order));
    var opt := OptIndex(grad, order);
    var gainMax := Abs(gain[opt]);
    var threshold := SplitThreshold(SortedValues(fea, order), opt);
    var polarity := if gainMax == gain[opt] then -1 else 1;
    ThresholdFit(polarity, threshold, gainMax)
  }

  /** The fit is the best split: its gain is the largest |gain| over all sorted
      positions, reached first at the chosen position opt, and the polarity is -1
      exactly when the gain there is non-negative. */
  lemma ComputeThreshMaximisesGain(fea: seq<real>, grad: seq<real>, order: seq<nat>)
    requires 0 < |fea| == |grad|
    requires IsSortingOrder(fea, order)
    ensures var t := ComputeThresh(fea, grad, order);
            var g := Gains(SortedWeights(grad, order));
            var opt := OptIndex(grad, order);
            && t.gain == Abs(g[opt])
            && (forall i :: 0 <= i < |fea| ==> Abs(g[i]) <= t.gain)
            && (forall i :: 0 <= i < opt ==> Abs(g[i]) < t.gain)
            && (t.polarity == -1 <==> g[opt] >= 0.0)
  {
    var g := Gains(SortedWeights(grad, order));
    assert forall i :: 0 <= i < |fea| ==> AbsAll(g)[i] == Abs(g[i]);
  }

  /** The threshold separates the samples ranked up to the chosen position from those
      ranked after it, so it lies between the smallest and the largest feature value. The
      separation is strict only where the values at opt and opt + 1 differ: inside a run
      of equal values the threshold is that value, and get_weak_scores, which sends
      values at least the threshold to one side, applies a different split. The last
      position, where the threshold is the value itself, is chosen only for a single
      sample, since its gain is 0 and argmax keeps the first maximum. */
  lemma ComputeThreshSeparates(fea: seq<real>, grad: seq<real>, order: seq<nat>)
    requires 0 < |fea| == |grad|
    requires IsSortingOrder(fea, order)
    ensures var t := ComputeThresh(fea, grad, order);
            var opt := OptIndex(grad, order);
            && (forall k :: 0 <= k <= opt ==> fea[order[k]] <= t.threshold)
            && (forall k :: opt < k < |fea| ==> t.threshold <= fea[order[k]])
            && (opt == |fea| - 1 ==> t.threshold == fea[order[opt]])
            && (opt == |fea| - 1 <==> |fea| == 1)
            && (opt + 1 < |fea| && fea[order[opt]] < fea[order[opt + 1]] ==>
                  && (forall k :: 0 <= k <= opt ==> fea[order[k]] < t.threshold)
                  && (forall k :: opt < k < |fea| ==> t.threshold < fea[order[k]]))
            && (exists i :: 0 <= i < |fea| && fea[i] <= t.threshold)
            && (exists j :: 0 <= j < |fea| && t.threshold <= fea[j])
  {
    var t := ComputeThresh(fea, grad, order);
    var sorted := SortedValues(fea, order);
    assert fea[order[0]] == sorted[0] <= t.threshold;
    assert t.threshold <= sorted[|fea| - 1] == fea[order[|fea| - 1]];
  }

  /** With an all-zero gradient every gain is zero, so the first position is chosen,
      the gain is 0 and the polarity is -1. */
  lemma {:induction false} ZeroGradientFit(fea: seq<real>, grad: seq<real>, order: seq<nat>)
    requires 0 < |fea| == |grad|
    requires IsSortingOrder(fea, order)
    requires forall n :: 0 <= n < |grad| ==> grad[n] == 0.0
    ensures OptIndex(grad, order) == 0
    ensures ComputeThresh(fea, grad, order).gain == 0.0
    ensures ComputeThresh(fea, grad, order).polarity == -1
  {
    var w := SortedWeights(grad, order);
    var g := Gains(w);
    GainsAreSuffixSums(w);
    forall i | 0 <= i < |w|
      ensures g[i] == 0.0
    {
      SumOfZeros(w[i + 1..]);
    }
    var a := AbsAll(g);
    assert forall i :: 0 <= i < |a| ==> a[i] == 0.0;
    var k := FirstArgMax(a);
    assert a[0] == a[k];
  }

  lemma GainsRankedFirst()
    ensures Gains([3.0, 0.0, 0.0]) == [0.0, 0.0, 0.0]
  {
    var w := [3.0, 0.0, 0.0];
    GainsAreSuffixSums(w);
    SumOfZeros(w[1..]);
    SumOfZeros(w[2..]);
  }

  lemma GainsRankedSecond()
    ensures Gains([0.0, 3.0, 0.0]) == [3.0, 0.0, 0.0]
  {
    var w := [0.0, 3.0, 0.0];
    GainsAreSuffixSums(w);
    SumOfZeros(w[2..]);
    assert w[1..] == [3.0, 0.0] && [3.0, 0.0][..1] == [3.0] && [3.0][..0] == [];
  }

  lemma TiedOrdersSort()
    ensures IsSortingOrder([1.0, 1.0, 2.0], [0, 1, 2]) && IsSortingOrder([1.0, 1.0, 2.0], [1, 0, 2])
  {
  }

  lemma TieFirstGain()
    ensures IsSortingOrder([1.0, 1.0, 2.0], [0, 1, 2])
    ensures ComputeThresh([1.0, 1.0, 2.0], [-3.0, 0.0, 0.0], [0, 1, 2]).gain == 0.0
  {
    TiedOrdersSort();
    assert SortedWeights([-3.0, 0.0, 0.0], [0, 1, 2]) == [3.0, 0.0, 0.0];
    GainsRankedFirst();
    ComputeThreshMaximisesGain([1.0, 1.0, 2.0], [-3.0, 0.0, 0.0], [0, 1, 2]);
  }

  lemma TieSecondGain()
    ensures IsSortingOrder([1.0, 1.0, 2.0], [1, 0, 2])
    ensures ComputeThresh([1.0, 1.0, 2.0], [-3.0, 0.0, 0.0], [1, 0, 2]).gain == 3.0
  {
    TiedOrdersSort();
    assert SortedWeights([-3.0, 0.0, 0.0], [1, 0, 2]) == [0.0, 3.0, 0.0];
    GainsRankedSecond();
    ComputeThreshMaximisesGain([1.0, 1.0, 2.0], [-3.0, 0.0, 0.0], [1, 0, 2]);
  }

  /** The order argsort gives to equal values matters: of two samples of value 1.0 with
      weights 3 and 0, ranking the first one first gives gain 0, the other way gain 3. */
  lemma TieOrderDecidesGain()
    ensures exists o1, o2 ::
              && IsSortingOrder([1.0, 1.0, 2.0], o1)
              && IsSortingOrder([1.0, 1.0, 2.0], o2)
              && ComputeThresh([1.0, 1.0, 2.0], [-3.0, 0.0, 0.0], o1).gain
                 != ComputeThresh([1.0, 1.0, 2.0], [-3.0, 0.0, 0.0], o2).gain
  {
    TieFirstGain();
    TieSecondGain();
    var o1: seq<nat>, o2: seq<nat> := [0, 1, 2], [1, 0, 2];
    assert IsSortingOrder([1.0, 1.0, 2.0], o1) && IsSortingOrder([1.0, 1.0, 2.0], o2);
  }

  /** The orders numpy.argsort gives to the feature columns: one sorting order per
      column, whatever order it gives to equal values. */
  ghost predicate SortingOrders(fea: seq<seq<real>>, orders: seq<seq<nat>>)
    requires IsMatrix(fea, Width(fea))
  {
    && |orders| == Width(fea)
    && forall d :: 0 <= d < Width(fea) ==> IsSortingOrder(Column(fea, d), orders[d])
  }

  /** The orders of the model's own argsort, one that meets SortingOrders. */
  function ArgSortColumns(fea: seq<seq<real>>): (orders: seq<seq<nat>>)
    requires IsMatrix(fea, Width(fea))
    ensures SortingOrders(fea, orders)
  {
    seq(Width(fea), d requires 0 <= d < Width(fea) => ArgSort(Column(fea, d)))
  }

  /** compute_thresh applied to column d of the training features, sorted by orders[d]. */
  function FeatureFit(fea: seq<seq<real>>, grad: seq<real>, orders: seq<seq<nat>>, d: nat): ThresholdFit
    requires 0 < |fea| == |grad|
    requires IsMatrix(fea, Width(fea)) && SortingOrders(fea, orders) && d < Width(fea)
  {
    ComputeThresh(Column(fea, d), grad, orders[d])
  }

  /** The fits of the first n features, in feature order. */
  function FeatureFits(fea: seq<seq<real>>, grad: seq<real>, orders: seq<seq<nat>>, n: nat): (fits: seq<ThresholdFit>)
    requires 0 < |fea| == |grad|
    requires IsMatrix(fea, Width(fea)) && SortingOrders(fea, orders) && n <= Width(fea)
    ensures |fits| == n
  {
    if n == 0 then [] else FeatureFits(fea, grad, orders, n - 1) + [FeatureFit(fea, grad, orders, n - 1)]
  }

  lemma {:induction false} FeatureFitsAt(fea: seq<seq<real>>, grad: seq<real>, orders: seq<seq<nat>>, n: nat, d: nat)
    requires 0 < |fea| == |grad|
    requires IsMatrix(fea, Width(fea)) && SortingOrders(fea, orders) && d < n <= Width(fea)
    ensures FeatureFits(fea, grad, orders, n)[d] == FeatureFit(fea, grad, orders, d)
  {
    var prev := FeatureFits(fea, grad, orders, n - 1);
    assert FeatureFits(fea, grad, orders, n) == prev + [FeatureFit(fea, grad, orders, n - 1)];
    if d < n - 1 {
      FeatureFitsAt(fea, grad, orders, n - 1, d);
      assert prev[d] == FeatureFit(fea, grad, orders, d);
    }
  }

  /** The gain array the loop of compute_weak_trainer fills beside the fits. */
  function GainsOf(fits: seq<ThresholdFit>): seq<real>
  {
    seq(|fits|, d requires 0 <= d < |fits| => fits[d].gain)
  }

  /** The per-feature gain array of compute_weak_trainer. */
  function FeatureGains(fea: seq<seq<real>>, grad: seq<real>, orders: seq<seq<nat>>): (gains: seq<real>)
    requires 0 < |fea| == |grad|
    requires IsMatrix(fea, Width(fea)) && SortingOrders(fea, orders)
  {
    GainsOf(FeatureFits(fea, grad, orders, Width(fea)))
  }

  /** The loop of compute_weak_trainer over the features, one compute_thresh each. */
  method FitAllFeatures(fea: seq<seq<real>>, grad: seq<real>, orders: seq<seq<nat>>) returns (fits: seq<ThresholdFit>)
    requires 0 < |fea| == |grad|
    requires IsMatrix(fea, Width(fea)) && SortingOrders(fea, orders)
    ensures fits == FeatureFits(fea, grad, orders, Width(fea))
  {
    fits := [];
    for i := 0 to Width(fea)
      invariant fits == FeatureFits(fea, grad, orders, i)
    {
      fits := fits + [FeatureFit(fea, grad, orders, i)];
    }
  }

  class StumpTrainer {
    var threshold: real
    var polarity: int
    var selectedIndices: nat

    constructor ()
      ensures threshold == 0.0 && polarity == 0 && selectedIndices == 0
    {
      threshold := 0.0;
      polarity := 0;
      selectedIndices := 0;
    }

    /** Fits a stump to every feature and keeps the first one of largest gain. The
        result is the trainer itself, not a copy. orders[d] is what numpy.argsort gives
        for column d: any order that sorts it. It is null where NumPy raises: with no
        samples (grad_cs[-1] of an empty array) or no features (argmax of an empty
        array); the fields are then unchanged. */
    method ComputeWeakTrainer(fea: seq<seq<real>>, lossGrad: seq<real>, orders: seq<seq<nat>>) returns (trained: StumpTrainer?)
      requires |fea| == |lossGrad|
      requires IsMatrix(fea, Width(fea)) && SortingOrders(fea, orders)
      modifies this
      ensures trained == null <==> |fea| == 0 || Width(fea) == 0
      ensures trained == null ==>
        threshold == old(threshold) && polarity == old(polarity) && selectedIndices == old(selectedIndices)
      ensures trained != null ==>
        && trained == this
        && selectedIndices == FirstArgMax(FeatureGains(fea, lossGrad, orders))
        && threshold == FeatureFit(fea, lossGrad, orders, selectedIndices).threshold
        && polarity == FeatureFit(fea, lossGrad, orders, selectedIndices).polarity
      ensures trained != null ==> polarity == -1 || polarity == 1
    {
      var numSamp, numFea := |fea|, Width(fea);
      if numSamp == 0 {
        return null;
      }
      var fits := FitAllFeatures(fea, lossGrad, orders);
      if numFea == 0 {
        return null;
      }
      var gains := GainsOf(fits);
      var optId := FirstArgMax(gains);
      FeatureFitsAt(fea, lossGrad, orders, numFea, optId);
      threshold := fits[optId].threshold;
      polarity := fits[optId].polarity;
      selectedIndices := optId;
      return this;
    }

    /** Scores every sample by the selected feature: polarity where the value is at
        least the threshold, -polarity below it. The N x 1 result is given row by row. */
    method GetWeakScores(testFeatures: seq<seq<real>>) returns (weakScores: seq<seq<int>>)
      requires forall n :: 0 <= n < |testFeatures| ==> selectedIndices < |testFeatures[n]|
      ensures |weakScores| == |testFeatures|
      ensures forall n :: 0 <= n < |testFeatures| ==>
        weakScores[n] == [if testFeatures[n][selectedIndices] >= threshold then polarity else -polarity]
      ensures polarity == 1 || polarity == -1 ==>
        forall n :: 0 <= n < |testFeatures| ==> weakScores[n][0] == 1 || weakScores[n][0] == -1
    {
      var numSamp := |testFeatures|;
      var scores := new int[numSamp](_ => 1);
      var weakFeatures := Column(testFeatures, selectedIndices);
      forall n | 0 <= n < numSamp && weakFeatures[n] < threshold {
        scores[n] := -1;
      }
      weakScores := seq(numSamp, n requires 0 <= n < numSamp reads this, scores => [polarity * scores[n]]);
    }
  }

  /** The feature compute_weak_trainer keeps has a gain at least that of every other
      feature, and strictly more than every feature before it, whatever sorting orders
      argsort gave. */
  lemma {:induction false} SelectedFeatureIsBest(fea: seq<seq<real>>, grad: seq<real>, orders: seq<seq<nat>>)
    requires 0 < |fea| == |grad|
    requires IsMatrix(fea, Width(fea)) && SortingOrders(fea, orders) && Width(fea) > 0
    ensures var sel := FirstArgMax(FeatureGains(fea, grad, orders));
            && sel < Width(fea)
            && (forall d :: 0 <= d < Width(fea) ==> FeatureFit(fea, grad, orders, d).gain <= FeatureFit(fea, grad, orders, sel).gain)
            && (forall d :: 0 <= d < sel ==> FeatureFit(fea, grad, orders, d).gain < FeatureFit(fea, grad, orders, sel).gain)
  {
    var gains := FeatureGains(fea, grad, orders);
    var sel := FirstArgMax(gains);
    var best := FeatureFit(fea, grad, orders, sel);
    FeatureFitsAt(fea, grad, orders, Width(fea), sel);
    assert gains[sel] == best.gain;
    forall d | 0 <= d < Width(fea)
      ensures FeatureFit(fea, grad, orders, d).gain <= best.gain
      ensures d < sel ==> FeatureFit(fea, grad, orders, d).gain < best.gain
    {
      FeatureFitsAt(fea, grad, orders, Width(fea), d);
      assert gains[d] == FeatureFit(fea, grad, orders, d).gain;
    }
  }
}
