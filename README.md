# Weighted ROC curves and the Dtrevc3 eigenvector test, in Dafny

This project models two pieces of the gonum numerical library and proves
properties of them.

**`stat.ROC`** (`stat/roc.go`) takes class labels already sorted by score, and
optionally one weight per observation. It returns the true and false positive
rates at the N + 1 cut points.

- `roc.dfy` (module `Roc`) states the result as a reference function,
  `RocSpec`.
- The method `ROC` follows the code's three loops over arrays. The loops are
  the cumulative sweep, the in-place conversion `1 - x * (1/total)`, and the
  in-place reversal from both ends. `ROC` is proved equal to `RocSpec`.
- Float special values are kept exactly where the code produces them, through
  the `Float` datatype of `ieee.dfy` (module `Ieee`). A class of total weight
  zero gives `1/0 = +Inf`, then `0 * Inf = NaN`.
- `roc_cases.dfy` (module `RocCases`) proves the expected outputs of the
  package's tests and examples.

**`dtrevc3Test`** (`lapack/testlapack/dtrevc3.go`) checks gonum's Dtrevc3
eigenvector routine. Three of its parts are modelled:

- **The selection mask builder**, in `eig_select.dfy` (module `EigSelect`).
  It follows LAPACK's DCHKHS test: it walks the eigenvalues from the last one
  down and selects the last `max(1, n/4)` real eigenvalues and the last
  `max(1, n/4)` complex pairs. It also builds the mask the test expects back
  and the expected column count `mWant`.
  - The loop is the method `SelectLast`. It is proved equal to a recursive
    function, `Selection`.
  - `Selection` is characterised in `SelectionProperties`. For eigenvalues in
    Schur canonical form (`schur.dfy`, module `Schur`) it states exactly which
    eigenvalues are chosen.
- **The mask check and the column walk.**
  - Module `EigMask` (`eig_mask.dfy`) relates the expected mask to LAPACK's mask convention.
  - Module `EigCompare` (`eig_compare.dfy`) models the walk that compares
    every selected eigenvector with the one computed when all of them were
    requested.
- **`residualEVNormalization`**, in `eig_norm.dfy` (module
  `EigNormalization`). It measures how far each eigenvector's max-norm is from
  one.

Matrices are lists of rows. A read outside the stored rectangle yields NaN.
Inside a row's stride that is the test's NaN padding. The Go code reads past
the stride differently; see "## Left out".

The code keeps a selected complex pair at its **lower** index `j-1` and clears
the higher index `j` (`dtrevc3.go:143-144`). That is also the convention of
LAPACK's DTREVC3 (`EigMask.Standardized`).

The selection loop runs while `j > 0`, so index 0 is never examined on its
own. A real eigenvalue at index 0 is never selected, and for `n <= 1` nothing
is selected. The model keeps this behaviour (`ChosenAt`, `ScanLaws`).

## Model

| member | source | states |
|---|---|---|
| Roc.RocSpec | stat/roc.go:35-40 | The call panics with "stat: slice length mismatch" exactly when weights is non-nil and of a different length. Empty classes give empty results. Otherwise both slices have N + 1 entries. |
| Roc.ROC | stat/roc.go:34-79 | The method over arrays (its three loops and two early returns) returns exactly the reference outcome `RocSpec`. |
| Roc.Accumulate | stat/roc.go:42-60 | After the sweep, entry i of each slice is the weight of that class among the first i observations. The running totals nPos and nNeg are the class totals. |
| Roc.ToRates | stat/roc.go:62-72 | Every entry x becomes `1 - x * (1/total)` of its class, with IEEE behaviour for a zero total. |
| Roc.ReverseTogether | stat/roc.go:73-76 | Swapping from both ends towards the middle leaves both slices reversed. |
| Roc.ThreeStepsGiveRates | stat/roc.go:44-76 | Accumulating, normalising and reversing give, at entry k, the rate for the class weight among the first N - k observations. |
| Roc.ClassWeightMonotone | stat/roc.go:44-60 | With nonnegative weights, the cumulative class weight is nonnegative and never decreases along the sweep. |
| Roc.RatesFormCurve | stat/roc.go:62-76 | For a class of positive total weight and nonnegative weights, its rates are numbers in [0, 1]. They start at 0, end at 1 and never decrease. |
| Roc.EmptyClassIsNaN | stat/roc.go:62-71 | A class of zero total weight gets NaN at every entry of its rate slice. |
| Roc.NilWeightsAreOnes | stat/roc.go:49-52 | Nil weights give the same outcome as weights that are all 1. |
| Roc.ScaleInvariant | stat/roc.go:62-72 | Multiplying every weight by the same positive factor leaves both rate slices unchanged. |
| RocCases.UnweightedTpr | stat/roc_test.go:30-32 | The true positive rates of case 0 are [0, .25, .5, .75, .75, 1, 1]. |
| RocCases.UnweightedFpr | stat/roc_test.go:33 | The false positive rates of case 0 are [0, 0, 0, 0, .5, .5, 1]. |
| RocCases.Unweighted | stat/roc_test.go:30-34 | The outcome of case 0 (also ExampleROC_unweighted) is both rate slices together. |
| RocCases.WeightedTpr | stat/roc_test.go:36-38 | The true positive rates of case 1 are [0, .25, .5, .875, .875, 1, 1]. |
| RocCases.WeightedFpr | stat/roc_test.go:39 | The false positive rates of case 1 are [0, 0, 0, 0, .6, .6, 1]. |
| RocCases.Weighted | stat/roc_test.go:35-40 | The outcome of case 1, which is also ExampleROC_weighted and, after sorting, ExampleROC_unsorted. |
| RocCases.Alternating | stat/roc_test.go:41-45 | The outcome of case 2, also the rates printed by ExampleROC_aUC. |
| RocCases.NegativesFirst | stat/roc_test.go:46-50 | The outcome of case 3. |
| RocCases.Threshold | stat/roc_example_test.go:39-51 | The outcome of ExampleROC_threshold once its labels are sorted by score. |
| RocCases.TwoNegatives | stat/roc_test.go:51-55 | With no positives, the TPR is all NaN and the FPR is [0, .5, 1]. |
| RocCases.OneNegative | stat/roc_test.go:56-60 | One negative gives TPR [NaN, NaN] and FPR [0, 1]. |
| RocCases.OnePositive | stat/roc_test.go:61-65 | One positive gives TPR [0, 1] and FPR [NaN, NaN]. |
| RocCases.NoObservations | stat/roc_test.go:66-70 | No observations give two empty slices. |
| RocCases.MismatchPanics | stat/roc.go:35-37 | Two labels with one weight panic with the mismatch message. |
| EigSelect.Quota | lapack/testlapack/dtrevc3.go:132 | The quota is at least 1 and at least n/4, and it is one of the two: `max(1, n/4)`. |
| EigSelect.SelectLast | lapack/testlapack/dtrevc3.go:127-149 | The loop's masks and counters are the picks of `Selection`, with `mWant = nselr + 2*nselc`. mWant entries of the input mask are set. In canonical form, the expected mask's eigenvectors fill exactly mWant columns. |
| EigSelect.SelectionProperties | lapack/testlapack/dtrevc3.go:127-149 | Both counters stay within the quota. Each real pick sets one entry and each pair pick sets two, with the expected mask keeping the lower index. In canonical form, a real eigenvalue (other than index 0) is selected iff fewer than the quota of real ones lie above it. A pair is selected iff fewer than the quota of pairs close above it, and the counters are the min of the quota and the counts. |
| EigMask.WantIsStandardized | lapack/testlapack/dtrevc3.go:138-147 | In canonical form, the expected mask is what LAPACK's mask convention makes of the mask passed in, and that convention leaves the expected mask unchanged. |
| EigMask.MaskMismatches | lapack/testlapack/dtrevc3.go:186-190 | An index is reported iff the returned and expected masks differ there. Indices are reported in increasing order, and none are reported iff the masks are equal. |
| EigCompare.CompareSelected | lapack/testlapack/dtrevc3.go:192-219 | The walk matches iff every selected eigenvalue's column (or two columns for a pair) in the selected output equals, under IEEE `==` in all n rows, its column(s) in the full output. On a match k is the number of columns used. On a mismatch k is the first column of the first eigenvector that differs. |
| EigCompare.ColumnsDisjoint | lapack/testlapack/dtrevc3.go:204-213 | The output columns of two selected eigenvalues do not overlap and follow the order of the eigenvalues. |
| EigCompare.PackedAgrees | lapack/testlapack/dtrevc3.go:192-219 | A NaN-free full output, with the selected eigenvectors packed side by side, passes the walk when no pair is opened at the last index. |
| EigCompare.WantFitsWalk | lapack/testlapack/dtrevc3.go:149 | In canonical form, a pair in the expected mask always has its positive index first and inside the matrix, and the selected eigenvectors pack into exactly mWant columns. |
| EigNormalization.MinNorm | lapack/testlapack/dtrevc3.go:272-300 | The running minimum starts at +Inf and is a number once any column has been measured. |
| EigNormalization.NormRange | lapack/testlapack/dtrevc3.go:271-300 | The sweep with its `ipair` tracker ends with the least and the greatest norm of the eigenvectors it measures. |
| EigNormalization.ColNormIsMax | lapack/testlapack/dtrevc3.go:284-286 | A real eigenvector's norm is the largest magnitude in its column, attained by some row. |
| EigNormalization.PairNormIsMax | lapack/testlapack/dtrevc3.go:291-293 | A complex eigenvector's norm is the largest `abs(re) + abs(im)` over its rows, attained by some row. |
| EigNormalization.MinNormIsMin | lapack/testlapack/dtrevc3.go:287-294 | `enrmin` is the least norm over the measured columns and some column attains it. |
| EigNormalization.MaxNormIsMax | lapack/testlapack/dtrevc3.go:288-295 | `enrmax` is the greatest norm over the measured columns and some column attains it. |
| EigNormalization.TrackerFollowsPairs | lapack/testlapack/dtrevc3.go:277-298 | In canonical form, the tracker starts a complex eigenvector exactly at positive imaginary parts and skips exactly the negative ones. |
| EigNormalization.ResidualEVNormalization | lapack/testlapack/dtrevc3.go:266-302 | As written: 0 for an empty matrix. Otherwise it is the distance to one of the SMALLEST measured norm. |
| EigNormalization.AsWrittenIsLowestBlock | lapack/testlapack/dtrevc3.go:301 | The returned value is `abs(b - 1)` for a measured block b whose norm no other measured block undercuts. |
| EigNormalization.AsWrittenMissesLargest | lapack/testlapack/dtrevc3.go:301 | For the eigenvectors diag(1, 2) of two real eigenvalues, the code returns 0 while the promised residual is 1. |
| EigNormalization.ResidualEVNormalizationFixed | lapack/testlapack/dtrevc3.go:264-265 | The residual the doc comment promises is no smaller than `abs(max-norm - 1)` of any measured eigenvector, equals it for one of them, and is 0 for an empty matrix. |
| EigNormalization.ResidualIsWorstBlock | lapack/testlapack/dtrevc3.go:264-265 | `max(abs(enrmin - 1), abs(enrmax - 1))` is the largest `abs(max-norm - 1)` over the measured eigenvectors. |

## Left out

- The calls into Dtrevc3 itself, the random Schur matrix generator, and the eigenvector residual helpers (residualRightEV, residualLeftEV). The model takes their outputs (`wi`, the masks and the matrices) as parameters.
- The checks that nothing was written outside the matrices (generalOutsideAllNaN), `mGot != mWant` and part (3) of the test. They compare results of code outside the modelled core.
- The reporting through `t.Errorf`. The walk returns its verdict and column instead, and the mask check returns the list of indices it would report.
- The left-eigenvector walk (`dtrevc3.go:221-247`). It is the right walk on `vl`, except that it continues with the `k` the right walk left behind. With both sides at once it would read past the selected columns, but the test never runs both sides (`dtrevc3.go:25-27`).
- Floating-point rounding and fused multiply-add. All arithmetic is exact on reals. Only the special values that the modelled code produces (±Inf from `1/0`, NaN from `0 * Inf`) and the NaN padding of the test's matrices are kept.
- EigNormalization.ResidualEVNormalization: the entries of E are finite reals, so NaN or infinite components of an eigenvector are not modelled.
- Schur.Entry: the walk indexes the flat buffer (`Data[i*Stride + k]`, `dtrevc3.go:199`, `207-208`). In Go, a column at or past the stride reads the next row, and on the last row it panics. Here such a read yields NaN, a mismatch. This happens only for a pair opened at the last index, a mask the check at `dtrevc3.go:186-190` already rejects.
- The strided one-dimensional storage of `blas64.General` (`Data[i*Stride + j]`). Matrices are lists of rows, and a stride larger than n corresponds to rows longer than n.
- The thresholds and cutoffs mentioned in the doc comment of ROC. The function has no such parameters, and it expects its input already sorted (SortWeightedLabeled is not part of this model).
- integrate.Trapezoidal, used by ExampleROC_aUC: only the rates that example prints are proved, not its area.
- The test's `floats.EqualApprox` tolerance. The expected rates are proved exactly.

## Findings

| source | as written | input that shows it | evidently intended | confidence | as-written member | corrected member |
|---|---|---|---|---|---|---|
| lapack/testlapack/dtrevc3.go:301 | the result is the larger of `abs(enrmin - 1)` and the same term again, so `enrmax` is computed but never used | E = diag(1, 2) with wi = [0, 0]: the code returns 0, although the second eigenvector's max-norm is 2 | the larger of `abs(enrmin - 1)` and `abs(enrmax - 1)`, which is the largest distance of a max-norm from one, as the doc comment at lines 264-265 promises | high; not executed | EigNormalization.AsWrittenMissesLargest | EigNormalization.ResidualEVNormalizationFixed |
