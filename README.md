# Boosting weak trainers and block LBP features, in Dafny

This project models two parts of the xbob.boosting package. Both are stated in Dafny and proved.

- **Weak trainers** (`xbob/boosting/core/trainers.py`):
  - The decision-stump trainer fits a threshold and a polarity to every feature and keeps the feature of largest gain.
  - The look-up-table (LUT) trainer does the following:
    - builds a histogram of the loss gradient over the integer codes of each feature;
    - scores every feature by minus its total absolute histogram mass;
    - picks one feature per output (`'indep'`) or one feature for all outputs (`'shared'`);
    - turns to -1 the table cells whose histogram value is not positive.
- **Block LBP features** (`xbob/boosting/features/local_feature.py`):
  - An integral image gives the pixel sum of every block.
  - For every block size, the map of block sums is coded with one of three variants:
    - lbp: each neighbour compared with the centre;
    - dlbp: opposite neighbours compared with each other, relative to the centre;
    - mlbp: each neighbour compared with the mean of the eight neighbours.
  - Each code map is flattened and the vectors are concatenated.

Modules:

- `NumpyOps` (numpy_ops.dfy) holds the NumPy building blocks: `Sum`, `CumSum`, first-occurrence argmax and argmin, columns, and an argsort.
- `StumpTrainers` (stump_trainer.dfy) and `LutTrainers` (lut_trainer.dfy) hold the two trainers.
  - Each trainer is a class whose fields the methods update: the stump's `threshold`, `polarity` and `selectedIndices`; the LUT's table `luts` (an `array2` masked in place) and `selectedIndices` (an `array` that 'indep' selection writes into and 'shared' selection replaces, so a caller holding the old array sees only the former).
  - Loops in the source are loops here. Each method is proved against a specification function, and the properties are lemmas about those functions.
- `IntegralImages` (integral_image.dfy) covers the integral image, the zero padding and the block sums. All are stated against `RectSum`, the plain double sum of a rectangle of pixels.
- `LbpCodes` (lbp_codes.dfy) covers the per-pixel codes. A code is a list of comparison outcomes read as digits (`PlaceValue`).
- `LocalFeatures` (local_feature.dfy) covers `get_features` and the class `LbpFeature`.
  - Every Python exception on the way becomes an `Err`:
    - `NegativeDimensions` for `numpy.zeros` with a negative size;
    - `UnboundName` for a name that is read but never bound.
  - The trainers return `null` where NumPy raises.

Feature values and gradients are `real`, and image pixels and codes are `int`.

## Model

| member | source | states |
|---|---|---|
| NumpyOps.CumSum | xbob/boosting/core/trainers.py:98 | numpy.cumsum: one running total per entry (CumSumIsPrefixSums gives their value) |
| NumpyOps.CumSumIsPrefixSums | xbob/boosting/core/trainers.py:98 | entry i of the running sum is the sum of entries 0..i |
| NumpyOps.FirstArgMax | xbob/boosting/core/trainers.py:103 | the index is in range, its value is the largest, and every earlier value is strictly smaller (argmax returns the first maximum) |
| NumpyOps.FirstArgMin | xbob/boosting/core/trainers.py:192 | the index is in range, its value is the least, and every earlier value is strictly larger |
| NumpyOps.ArgSort | xbob/boosting/core/trainers.py:93 | the result is a sorting order: a permutation of the indices (distinct, all present) under which the keys do not decrease |
| StumpTrainers.SortedWeightsSum | xbob/boosting/core/trainers.py:89-95 | the weights rearranged by a sorting order are -loss_grad permuted, so they total -sum(loss_grad) |
| StumpTrainers.SortedWeightsTotal | xbob/boosting/core/trainers.py:98-99 | grad_sum = grad_cs[-1] is -sum(loss_grad) whatever order argsort gives to equal values |
| StumpTrainers.Gains | xbob/boosting/core/trainers.py:98-100 | one gain per sorted position (GainsAreSuffixSums gives their value) |
| StumpTrainers.GainsAreSuffixSums | xbob/boosting/core/trainers.py:98-100 | gain[i] = grad_sum - grad_cs[i] is the total weight of the samples ranked after position i; the last gain is 0 |
| StumpTrainers.OptIndex | xbob/boosting/core/trainers.py:103 | opt is a sorted position, and it is the last one only when there is a single sample (the last gain is 0 and argmax keeps the first maximum) |
| StumpTrainers.SplitThreshold | xbob/boosting/core/trainers.py:106-111 | the threshold (the midpoint of positions opt and opt+1, or the last value) is at least every sorted value up to opt and at most every value after it |
| StumpTrainers.ComputeThresh | xbob/boosting/core/trainers.py:71-118 | polarity is -1 or +1 and gain_max is non-negative, for any sorting order of the feature |
| StumpTrainers.ComputeThreshMaximisesGain | xbob/boosting/core/trainers.py:100-104 | gain_max = abs(gain[opt]) is the largest abs(gain); every earlier position has a strictly smaller one; polarity is -1 exactly when gain[opt] >= 0 (lines 113-116) |
| StumpTrainers.ComputeThreshSeparates | xbob/boosting/core/trainers.py:106-111 | the threshold is >= every value ranked up to opt and <= every value after it, strictly on both sides when the values at opt and opt+1 differ (inside a run of equal values it is that value, so get_weak_scores' `>=` split differs from the scored one); it equals fea[opt] at the last position, which is reached exactly for a single sample; it lies between the smallest and largest value |
| StumpTrainers.ZeroGradientFit | xbob/boosting/core/trainers.py:98-116 | an all-zero gradient gives opt 0, gain 0 and polarity -1 |
| StumpTrainers.TieOrderDecidesGain | xbob/boosting/core/trainers.py:93-104 | two sorting orders of the same feature values (equal values swapped) give different gains, so the trainer is stated for whatever orders argsort gives |
| StumpTrainers.ArgSortColumns | xbob/boosting/core/trainers.py:93 | the model's argsort gives one sorting order per feature column |
| StumpTrainers.FeatureFitsAt | xbob/boosting/core/trainers.py:58-59 | entry d of the per-feature fits is compute_thresh of column d under its sorting order |
| StumpTrainers.FitAllFeatures | xbob/boosting/core/trainers.py:52-59 | the loop over the features yields compute_thresh of every column under the given sorting orders, in order |
| StumpTrainers.StumpTrainer.constructor | xbob/boosting/core/trainers.py:24-28 | threshold, polarity and selected index start at 0 |
| StumpTrainers.StumpTrainer.ComputeWeakTrainer | xbob/boosting/core/trainers.py:34-66 | for any sorting orders of the columns (argsort's): null (NumPy raises) exactly when there are no samples or no features, with the fields unchanged; otherwise returns the trainer itself, with selected_indices the first feature of largest gain and threshold and polarity from that feature's fit, polarity +1 or -1 |
| StumpTrainers.SelectedFeatureIsBest | xbob/boosting/core/trainers.py:62-65 | for any sorting orders, the kept feature's gain is at least every feature's and strictly more than every earlier feature's |
| StumpTrainers.StumpTrainer.GetWeakScores | xbob/boosting/core/trainers.py:123-144 | score n is polarity where the selected feature is >= threshold and -polarity below it; each score is +1 or -1 once the polarity is |
| LutTrainers.BucketSum | xbob/boosting/core/trainers.py:257 | sum(loss_grado[fval == h]) is 0 when no sample has code h |
| LutTrainers.Hist | xbob/boosting/core/trainers.py:245-258 | one bucket per table entry |
| LutTrainers.HistStep | xbob/boosting/core/trainers.py:256-257 | one more sample adds its gradient to the bucket of its code, and to none when the code is not a table entry |
| LutTrainers.HistTotal | xbob/boosting/core/trainers.py:256-257 | the buckets together hold exactly the gradient mass of the samples whose code is a table entry |
| LutTrainers.HistIgnoresOutOfRange | xbob/boosting/core/trainers.py:257 | a sample whose code is negative or >= num_entries changes no bucket |
| LutTrainers.Score | xbob/boosting/core/trainers.py:236 | the loss -sum(abs(hist_grad)) is never positive |
| LutTrainers.SumLoss | xbob/boosting/core/trainers.py:230-236 | the loss matrix has one row per feature and one column per output |
| LutTrainers.IndepSelection | xbob/boosting/core/trainers.py:189-194 | one valid feature index per output |
| LutTrainers.RowSums | xbob/boosting/core/trainers.py:202 | accum_loss: one total per feature |
| LutTrainers.SharedSelection | xbob/boosting/core/trainers.py:202-203 | a valid feature index |
| LutTrainers.IndepNoWorseThanShared | xbob/boosting/core/trainers.py:184-207 | the total loss of the 'indep' choice is at most that of the 'shared' choice |
| LutTrainers.SingleOutputModesAgree | xbob/boosting/core/trainers.py:184-207 | with one output, 'indep' and 'shared' choose the same feature |
| LutTrainers.LutTrainer.constructor | xbob/boosting/core/trainers.py:156-163 | a num_entries x num_op table of +1 and a new array holding feature 0 for every output |
| LutTrainers.LutTrainer.ComputeHGrad | xbob/boosting/core/trainers.py:245-258 | the loop fills bucket h with the gradient mass of the samples of code h |
| LutTrainers.LutTrainer.ComputeFGrad | xbob/boosting/core/trainers.py:217-239 | the nested loops fill the loss of every feature for every output |
| LutTrainers.LutTrainer.FitIndep | xbob/boosting/core/trainers.py:184-194 | writing into the existing selected_indices array, each output takes the first feature of least loss for it, and its fea_grad column is that feature's histogram |
| LutTrainers.LutTrainer.FitShared | xbob/boosting/core/trainers.py:197-207 | selected_indices is bound to a new array in which every output takes the first feature of least summed loss, and every fea_grad column is that feature's histogram for the output |
| LutTrainers.LutTrainer.Selection | xbob/boosting/core/trainers.py:184-207 | one feature per output, each a valid feature for 'indep' and 'shared', the same for every output under 'shared', and the old selection for any other type |
| LutTrainers.LutTrainer.ComputeWeakTrainer | xbob/boosting/core/trainers.py:168-211 | null (NumPy raises) exactly with no samples, or no features under 'shared' or under 'indep' with outputs, with nothing changed; otherwise returns itself, with the selection of the mode (old one for an unknown mode), written into the same selected_indices array except under 'shared', which allocates a new one; a cell becomes -1 where the chosen histogram is not positive and keeps its value elsewhere (line 210); an unknown mode makes the table all -1; a -1 cell is never reset; the table stays +1/-1 |
| LutTrainers.LutTrainer.LookUp | xbob/boosting/core/trainers.py:270-273 | the loop over the outputs fills score (n, k) with the table cell of sample n's code for the feature given to output k |
| LutTrainers.LutTrainer.GetWeakScores | xbob/boosting/core/trainers.py:263-274 | score (n, k) is the table cell of the code of sample n for output k's feature, and is +1 or -1 |
| IntegralImages.CumSumDown | xbob/boosting/features/local_feature.py:41 | numpy.cumsum(img, 0) has the shape of the image |
| IntegralImages.CumSumDownIsColSum | xbob/boosting/features/local_feature.py:41 | the running sum down the columns holds at (i, j) the total of column j over rows 0..i |
| IntegralImages.CumSumAcross | xbob/boosting/features/local_feature.py:42 | numpy.cumsum(m, 1) has the shape of m |
| IntegralImages.IntegralImage | xbob/boosting/features/local_feature.py:30-43 | the integral image has the shape of the image |
| IntegralImages.IntegralImageIsRectSum | xbob/boosting/features/local_feature.py:41-43 | entry (r, c) is the sum of the pixels in rows 0..r and columns 0..c |
| IntegralImages.Pad | xbob/boosting/features/local_feature.py:65-66 | a (rows + 1) x (cols + 1) array with a zero first row and column |
| IntegralImages.PaddedIsRectSum | xbob/boosting/features/local_feature.py:63-66 | entry (a, b) of the zero-padded integral image is the sum of the first a rows and b columns |
| IntegralImages.BlockSums | xbob/boosting/features/local_feature.py:78 | block_sum has max(0, rows - scale_y) rows and max(0, cols - scale_x) columns |
| IntegralImages.BlockSumIsRectSum | xbob/boosting/features/local_feature.py:78 | block_sum[i][j] is the sum of the image over rows i..i+scale_y and columns j..j+scale_x |
| LbpCodes.PlaceValueBound | xbob/boosting/features/local_feature.py:119-120 | n outcomes weighted by radix^ind stay at most radix^n - 1 |
| LbpCodes.LowBitsOfPlaceValue | xbob/boosting/features/local_feature.py:119-120 | reading a code back bit by bit gives the outcomes it was made of |
| LbpCodes.LbpCode | xbob/boosting/features/local_feature.py:116-121 | an lbp code is a byte |
| LbpCodes.LbpCodeMeaning | xbob/boosting/features/local_feature.py:116-121 | an lbp code lies in 0..255 and its bit ind is set exactly when the neighbour at coord[ind] is >= the centre block |
| LbpCodes.MlbpCode | xbob/boosting/features/local_feature.py:198-214 | an mlbp code is a byte |
| LbpCodes.MlbpCodeMeaning | xbob/boosting/features/local_feature.py:198-214 | an mlbp code lies in 0..255 and its bit ind is set exactly when neighbour ind is >= the mean of the eight neighbours, the centre left out |
| LbpCodes.DlbpCode | xbob/boosting/features/local_feature.py:168-180 | the sign outcomes at 2^ind plus the magnitude outcomes at 4^ind give a code in 0..100 |
| LocalFeatures.CodeMap | xbob/boosting/features/local_feature.py:103-214 | the code map is feature_map_dimy x feature_map_dimx, every code fits a byte, and dlbp codes stop at 100 |
| LocalFeatures.Tlbp | xbob/boosting/features/local_feature.py:125-150 | tlbp never returns a map: it raises for a negative size (line 139), and otherwise on the unbound num_neighbours (line 143) |
| LocalFeatures.FlattenColumnMajor | xbob/boosting/features/local_feature.py:95 | the reshaped vector has feature_map_dimy * feature_map_dimx entries (FlattenColumnMajorAt gives their order) |
| LocalFeatures.FlattenColumnMajorAt | xbob/boosting/features/local_feature.py:95 | the reshape puts the code at row y, column x at position x * rows + y (column by column) |
| LocalFeatures.LbpPass | xbob/boosting/features/local_feature.py:119-120 | one pass of the lbp loop adds the outcome of neighbour ind at place 2^ind to every code |
| LocalFeatures.DlbpPass | xbob/boosting/features/local_feature.py:171-178 | one pass of the dlbp loop adds the sign outcome at 2^ind and the magnitude outcome at 4^ind |
| LocalFeatures.AddNeighbourPass | xbob/boosting/features/local_feature.py:202-203 | after ind passes pm holds the sum of the first ind neighbours |
| LocalFeatures.MlbpPass | xbob/boosting/features/local_feature.py:204-213 | one pass of the mlbp loop adds the comparison with pm / 8 at place 2^ind |
| LocalFeatures.PartialCodeMapDone | xbob/boosting/features/local_feature.py:119-121 | after all passes the accumulated map is the code map |
| LocalFeatures.LbpFeature.constructor | xbob/boosting/features/local_feature.py:19-27 | the extractor keeps its feature type |
| LocalFeatures.JoinAssociative | xbob/boosting/features/local_feature.py:73-98 | hstack of results is associative (with the first exception winning), so the sx-outer, sy-inner loops build one flat vector |
| LocalFeatures.JoinEmpty | xbob/boosting/features/local_feature.py:71-98 | the initial empty feature_vector is an identity of hstack on either side |
| LocalFeatures.LbpFeature.Lbp | xbob/boosting/features/local_feature.py:103-121 | raises for a negative size, and otherwise returns the lbp code map |
| LocalFeatures.LbpFeature.Dlbp | xbob/boosting/features/local_feature.py:154-180 | raises for a negative size, and otherwise returns the dlbp code map |
| LocalFeatures.LbpFeature.Mlbp | xbob/boosting/features/local_feature.py:184-214 | raises for a negative size, and otherwise returns the mlbp code map |
| LocalFeatures.LbpFeature.FeatureMap | xbob/boosting/features/local_feature.py:85-92 | dispatches lbp, tlbp, dlbp, mlbp in that order; any other type leaves feature_map unbound |
| LocalFeatures.LbpFeature.ScaleFeatures | xbob/boosting/features/local_feature.py:78-95 | one scale: the block sums, the feature map, flattened column by column |
| LocalFeatures.LbpFeature.GetFeatures | xbob/boosting/features/local_feature.py:45-99 | the loops give the scale vectors concatenated with scale_x outer and scale_y inner, or the first exception; negative bounds give empty ranges |
| LocalFeatures.FirstErrorDecides | xbob/boosting/features/local_feature.py:74-98 | the first scale that raises decides the result |
| LocalFeatures.InnerStep | xbob/boosting/features/local_feature.py:98 | appending one scale's vector extends the inner loop by one scale |
| LocalFeatures.OuterStep | xbob/boosting/features/local_feature.py:74-98 | a finished inner loop extends the outer loop by one block width |
| LocalFeatures.ScaleVector | xbob/boosting/features/local_feature.py:78-95 | one scale raises exactly when the type has no code map or the block map has fewer than 2 rows or columns, and for lbp/dlbp/mlbp the exception is the negative-size one |
| LocalFeatures.ScaleVectorLength | xbob/boosting/features/local_feature.py:78-95 | a scale that succeeds gives (rows - sy - 2)(cols - sx - 2) codes |
| LocalFeatures.InnerScales | xbob/boosting/features/local_feature.py:75-98 | the inner loop succeeds only when every one of its scales does |
| LocalFeatures.OuterScales | xbob/boosting/features/local_feature.py:74-98 | the outer loop succeeds only when every one of its inner loops does |
| LocalFeatures.Features | xbob/boosting/features/local_feature.py:45-99 | get_features is empty for a zero scale bound, succeeds only when every scale does, and otherwise raises the exception of one scale |
| LocalFeatures.InnerErrFromScale | xbob/boosting/features/local_feature.py:75-98 | an exception of the inner loop is that of one of its scales |
| LocalFeatures.OuterErrFromScale | xbob/boosting/features/local_feature.py:74-98 | an exception of the outer loop is that of one of its scales |
| LocalFeatures.InnerScalesOutcome | xbob/boosting/features/local_feature.py:75-98 | the inner loop raises exactly when its last scale does |
| LocalFeatures.InnerScalesLength | xbob/boosting/features/local_feature.py:75-98 | a successful inner loop gives sum over sy of (rows - sy - 2) times (cols - sx - 2) codes |
| LocalFeatures.OuterScalesOutcome | xbob/boosting/features/local_feature.py:74-98 | the whole loop raises exactly when the largest block leaves fewer than 2 block rows or columns |
| LocalFeatures.OuterScalesLength | xbob/boosting/features/local_feature.py:74-98 | a successful run gives ScaleCount(rows, scale_max_y) * ScaleCount(cols, scale_max_x) codes |
| LocalFeatures.ScaleCountClosedForm | xbob/boosting/features/local_feature.py:74-82 | 2 * sum over s < m of (n - s - 2) = m(2n - m - 3) |
| LocalFeatures.FeaturesOutcome | xbob/boosting/features/local_feature.py:45-99 | per feature type: empty for a zero scale bound; for lbp/dlbp/mlbp either the negative-size exception or the full count of codes; tlbp always raises; other types raise on feature_map |
| LocalFeatures.LbpFeature.GetFeatureNumber | xbob/boosting/features/local_feature.py:217-232 | get_feature_number as written (scale_y handed over as scale_max_x): numpy.zeros raises for a negative dimension, and a scale <= 0 gives 0 features (FeatureNumberAsWritten gives the count) |
| LocalFeatures.LbpFeature.GetFeatureNumberIntended | xbob/boosting/features/local_feature.py:217-232 | the corrected get_feature_number: the same exceptions and zero counts (FeatureNumberIntended gives the count) |
| LocalFeatures.FeatureNumberAsWritten | xbob/boosting/features/local_feature.py:217-232 | get_feature_number counts blocks up to scale_x rows high and scale_y columns wide, or raises as get_features does |
| LocalFeatures.FeatureNumberIntended | xbob/boosting/features/local_feature.py:217-232 | the corrected count takes scale_y as the block height bound and scale_x as the width bound |
| LocalFeatures.FeatureNumberSwapsScales | xbob/boosting/features/local_feature.py:230-232 | for a 5 x 10 image, scale_y = 1 and scale_x = 3, lbp gives 48 as written and 63 as documented |

## Left out

- The driver, the loss functions and the machines are outside the modelled files.
- Floating point. Gradients, gains and thresholds are exact `real`s, so IEEE rounding and NaN are not modelled. The mlbp mean `pm / 8` is an exact division.
- The order `numpy.argsort` gives to equal values. It is a parameter: `compute_thresh` and the stump `compute_weak_trainer` are stated for every sorting order of each column (`IsSortingOrder`, `SortingOrders`). Which order NumPy picks is not modelled, and `TieOrderDecidesGain` shows that the gain, and so the selected feature, can depend on it. `NumpyOps.ArgSort` is one such order: a stable insertion sort.
- Exceptions. NumPy's `IndexError`/`ValueError` in the trainers are a `null` result. In the features they are an `Err` naming the cause; the Python exception classes and messages are not modelled.
- NumPy negative-index wrap-around and shape broadcasting. Callers must pass indices and codes in range and arrays of matching shapes (the `requires` clauses).
- `LutTrainers.LutTrainer.GetWeakScores`: it requires `num_entries > 0`, because the source reads `len(self.luts[0])` and raises when the table has no rows.
- The `int16` type of the LUT `selected_indices`, which would wrap for more than 32767 features.
- The stump `get_weak_scores` returns an N x 1 array; it is modelled as N one-element rows.
- An image with no rows. It is a sequence of rows, so it carries no column count; every feature outcome for such an image is the same whatever its width.
- The dtypes of `feature_vector` (`uint8` at first, promoted by `hstack`) and of the float feature maps; codes are integers.
- Reading `numpy.reshape(feature_map, n, 1)`: the third argument is the array order, and a true value selects Fortran order. The maps are therefore flattened column by column, and `FlattenColumnMajor` models that.
- The mlbp mean leaves the centre block out, although the descriptions at local_feature.py:26 and local_feature.py:201 say it includes the centre; the model follows the code.
- `range(num_neighbours/2)` in dlbp is Python 2 integer division, so there are 4 passes.

## Findings

| source | as written | input that shows it | evidently intended | confidence | as-written member | corrected member |
|---|---|---|---|---|---|---|
| xbob/boosting/features/local_feature.py:231 | `get_features(img, scale_y, scale_x)` passes `scale_y` as `scale_max_x` (block width) and `scale_x` as `scale_max_y` (block height) | a 5 x 10 image with scale_y = 1, scale_x = 3, lbp: 48 features as written | the documented meaning (scale_y bounds block rows, scale_x block columns), i.e. `get_features(img, scale_x, scale_y)`: 63 features | medium, not executed | LocalFeatures.FeatureNumberAsWritten | LocalFeatures.FeatureNumberIntended |
