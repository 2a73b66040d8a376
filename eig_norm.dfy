/** The normalization residual of dtrevc3Test: Dtrevc3 scales every
    eigenvector so that its largest component has magnitude one, where the
    magnitude of a complex component is |re| + |im|. The residual measures
    how far the eigenvectors held in the columns of E are from that.

    Entries are exact reals: rounding and non-finite entries are not
    modelled. E is a list of rows; the test's E is n by n, and rows that
    are longer (a larger stride) are allowed. The same eigenvector matrix
    is a `Schur.Matrix` of `Float`s in the comparison walk, where a NaN
    matters because it compares unequal to everything. Here it is taken
    as finite, so its entries are plain reals. */
module EigNormalization {
  import opened Ieee
  import opened Schur

  function Abs(x: real): (a: real)
    ensures a >= 0.0 && (a == x || a == -x)
  {
    if x < 0.0 then -x else x
  }

  /** `math.Max` on finite values. */
  function Max(a: real, b: real): (m: real)
    ensures m >= a && m >= b && (m == a || m == b)
  {
    if a >= b then a else b
  }

  /** Every one of the n rows of E holds at least n entries. */
  predicate Wide(e: seq<seq<real>>)
  {
    forall i :: 0 <= i < |e| ==> |e[i]| >= |e|
  }

  /** The residual reads wi[j] only for j < n-1, so wi may be one shorter
      than E. */
  predicate Shapes(e: seq<seq<real>>, wi: seq<real>)
  {
    Wide(e) && |e| <= |wi| + 1
  }

  /** Column j of E (of n) starts the real and imaginary parts of a complex
      eigenvector: its eigenvalue has a nonzero imaginary part, it is not the
      last column, and the column before it did not start a pair itself. */
  predicate PairStart(wi: seq<real>, n: nat, j: nat)
    requires n <= |wi| + 1 && j < n
    decreases j
  {
    j < n - 1 && wi[j] != 0.0 && !(j > 0 && PairStart(wi, n, j - 1))
  }

  /** Column j holds the imaginary part of the pair the column before it
      started; it is not measured on its own. */
  predicate Skipped(wi: seq<real>, n: nat, j: nat)
    requires n <= |wi| + 1 && j < n
  {
    j > 0 && PairStart(wi, n, j - 1)
  }

  /** max over the first m rows of |E[i][j]|, starting from zero. */
  function ColNorm(e: seq<seq<real>>, j: nat, m: nat): real
    requires Wide(e) && j < |e| && m <= |e|
  {
    if m == 0 then 0.0 else Max(ColNorm(e, j, m - 1), Abs(e[m - 1][j]))
  }

  /** max over the first m rows of |E[i][j]| + |E[i][j+1]|: the max-norm of
      the complex eigenvector stored as columns j (real part) and j+1
      (imaginary part). */
  function PairNorm(e: seq<seq<real>>, j: nat, m: nat): real
    requires Wide(e) && j + 1 < |e| && m <= |e|
  {
    if m == 0 then 0.0 else Max(PairNorm(e, j, m - 1), Abs(e[m - 1][j]) + Abs(e[m - 1][j + 1]))
  }

  /** The max-norm of the eigenvector whose first column is j. */
  function BlockNorm(e: seq<seq<real>>, wi: seq<real>, j: nat): real
    requires Shapes(e, wi) && j < |e|
  {
    if PairStart(wi, |e|, j) then PairNorm(e, j, |e|) else ColNorm(e, j, |e|)
  }

  /** The smallest block norm among the measured columns before m, or +Inf
      when there is none (the running `enrmin`). */
  function MinNorm(e: seq<seq<real>>, wi: seq<real>, m: nat): (r: Float)
    requires Shapes(e, wi) && m <= |e|
    ensures r.Num? || r == PosInf
    ensures m > 0 ==> r.Num?
  {
    if m == 0 then PosInf
    else if Skipped(wi, |e|, m - 1) then MinNorm(e, wi, m - 1)
    else MinWith(MinNorm(e, wi, m - 1), BlockNorm(e, wi, m - 1))
  }

  /** The largest block norm among the measured columns before m, starting
      from zero (the running `enrmax`). */
  function MaxNorm(e: seq<seq<real>>, wi: seq<real>, m: nat): real
    requires Shapes(e, wi) && m <= |e|
  {
    if m == 0 then 0.0
    else if Skipped(wi, |e|, m - 1) then MaxNorm(e, wi, m - 1)
    else Max(MaxNorm(e, wi, m - 1), BlockNorm(e, wi, m - 1))
  }

  /** The residual the test computes: the min block norm's distance to one,
      taken twice. */
  function AsWrittenResidual(e: seq<seq<real>>, wi: seq<real>): real
    requires Shapes(e, wi)
  {
    if |e| == 0 then 0.0
    else var lo := Abs(MinNorm(e, wi, |e|).r - 1.0); Max(lo, lo)
  }

  /** The residual the doc comment promises: the largest distance to one of
      any block norm, computed from the min and the max. */
  function Residual(e: seq<seq<real>>, wi: seq<real>): real
    requires Shapes(e, wi)
  {
    if |e| == 0 then 0.0
    else Max(Abs(MinNorm(e, wi, |e|).r - 1.0), Abs(MaxNorm(e, wi, |e|) - 1.0))
  }

  /** The sweep over the columns of E with the `ipair` tracker: the smallest
      and largest norm of the eigenvectors it measures. */
  method NormRange(e: seq<seq<real>>, wi: seq<real>) returns (enrmin: Float, enrmax: real)
    requires Shapes(e, wi)
    ensures enrmin == MinNorm(e, wi, |e|) && enrmax == MaxNorm(e, wi, |e|)
  {
    var n := |e|;
    enrmin, enrmax := PosInf, 0.0;
    var ipair := 0;
    var j := 0;
    while j < n
      invariant 0 <= j <= n
      invariant ipair == (if j > 0 && PairStart(wi, n, j - 1) then 2 else 0)
      invariant enrmin == MinNorm(e, wi, j) && enrmax == MaxNorm(e, wi, j)
    {
      if ipair == 0 && j < n - 1 && wi[j] != 0.0 {
        ipair := 1;
      }
      var nrm := 0.0;
      if ipair == 0 {
        // a real eigenvector
        var i := 0;
        while i < n
          invariant 0 <= i <= n
          invariant nrm == ColNorm(e, j, i)
        {
          nrm := Max(nrm, Abs(e[i][j]));
          i := i + 1;
        }
        enrmin := MinWith(enrmin, nrm);
        enrmax := Max(enrmax, nrm);
      } else if ipair == 1 {
        // a complex eigenvector in columns j and j+1
        var i := 0;
        while i < n
          invariant 0 <= i <= n
          invariant nrm == PairNorm(e, j, i)
        {
          nrm := Max(nrm, Abs(e[i][j]) + Abs(e[i][j + 1]));
          i := i + 1;
        }
        enrmin := MinWith(enrmin, nrm);
        enrmax := Max(enrmax, nrm);
        ipair := 2;
      } else {
        ipair := 0;
      }
      j := j + 1;
    }
  }

  /** residualEVNormalization as written. */
  method ResidualEVNormalization(e: seq<seq<real>>, wi: seq<real>) returns (res: real)
    requires Shapes(e, wi)
    ensures res == AsWrittenResidual(e, wi)
    ensures |e| > 0 ==> exists j :: 0 <= j < |e| && !Skipped(wi, |e|, j) && res == Abs(BlockNorm(e, wi, j) - 1.0)
                                    && forall j' :: 0 <= j' < |e| && !Skipped(wi, |e|, j') ==> BlockNorm(e, wi, j) <= BlockNorm(e, wi, j')
  {
    if |e| == 0 {
      return 0.0;
    }
    var enrmin, enrmax := NormRange(e, wi);
    res := Max(Abs(enrmin.r - 1.0), Abs(enrmin.r - 1.0));
    AsWrittenIsLowestBlock(e, wi);
  }

  /** residualEVNormalization with the maximum taken over both ends of the
      range, as its doc comment intends: the largest |max-norm - 1| over the
      eigenvectors in E. */
  method ResidualEVNormalizationFixed(e: seq<seq<real>>, wi: seq<real>) returns (res: real)
    requires Shapes(e, wi)
    ensures res == Residual(e, wi)
    ensures forall j :: 0 <= j < |e| && !Skipped(wi, |e|, j) ==> Abs(BlockNorm(e, wi, j) - 1.0) <= res
    ensures |e| > 0 ==> exists j :: 0 <= j < |e| && !Skipped(wi, |e|, j) && res == Abs(BlockNorm(e, wi, j) - 1.0)
    ensures |e| == 0 ==> res == 0.0
  {
    if |e| == 0 {
      return 0.0;
    }
    var enrmin, enrmax := NormRange(e, wi);
    res := Max(Abs(enrmin.r - 1.0), Abs(enrmax - 1.0));
    ResidualIsWorstBlock(e, wi);
  }

  /** ColNorm is the max-norm of the column: no entry exceeds it and, over a
      nonempty range, one entry attains it. */
  lemma {:induction false} ColNormIsMax(e: seq<seq<real>>, j: nat, m: nat)
    requires Wide(e) && j < |e| && m <= |e|
    ensures forall i :: 0 <= i < m ==> Abs(e[i][j]) <= ColNorm(e, j, m)
    ensures m > 0 ==> exists i :: 0 <= i < m && ColNorm(e, j, m) == Abs(e[i][j])
    ensures ColNorm(e, j, m) >= 0.0
  {
    if m > 0 {
      ColNormIsMax(e, j, m - 1);
      if m - 1 > 0 && ColNorm(e, j, m) == ColNorm(e, j, m - 1) {
        var i :| 0 <= i < m - 1 && ColNorm(e, j, m - 1) == Abs(e[i][j]);
        assert ColNorm(e, j, m) == Abs(e[i][j]);
      } else {
        assert ColNorm(e, j, m) == Abs(e[m - 1][j]);
      }
    }
  }

  /** PairNorm is the max-norm of the complex vector in columns j, j+1. */
  lemma {:induction false} PairNormIsMax(e: seq<seq<real>>, j: nat, m: nat)
    requires Wide(e) && j + 1 < |e| && m <= |e|
    ensures forall i :: 0 <= i < m ==> Abs(e[i][j]) + Abs(e[i][j + 1]) <= PairNorm(e, j, m)
    ensures m > 0 ==> exists i :: 0 <= i < m && PairNorm(e, j, m) == Abs(e[i][j]) + Abs(e[i][j + 1])
    ensures PairNorm(e, j, m) >= 0.0
  {
    if m > 0 {
      PairNormIsMax(e, j, m - 1);
      if m - 1 > 0 && PairNorm(e, j, m) == PairNorm(e, j, m - 1) {
        var i :| 0 <= i < m - 1 && PairNorm(e, j, m - 1) == Abs(e[i][j]) + Abs(e[i][j + 1]);
        assert PairNorm(e, j, m) == Abs(e[i][j]) + Abs(e[i][j + 1]);
      } else {
        assert PairNorm(e, j, m) == Abs(e[m - 1][j]) + Abs(e[m - 1][j + 1]);
      }
    }
  }

  /** MinNorm is the least block norm among the measured columns before m,
      and one of them attains it. */
  lemma {:induction false} MinNormIsMin(e: seq<seq<real>>, wi: seq<real>, m: nat)
    requires Shapes(e, wi) && 0 < m <= |e|
    ensures forall j :: 0 <= j < m && !Skipped(wi, |e|, j) ==> MinNorm(e, wi, m).r <= BlockNorm(e, wi, j)
    ensures exists j :: 0 <= j < m && !Skipped(wi, |e|, j) && MinNorm(e, wi, m).r == BlockNorm(e, wi, j)
  {
    if m == 1 {
      assert !Skipped(wi, |e|, 0);
      assert MinNorm(e, wi, 1).r == BlockNorm(e, wi, 0);
    } else {
      MinNormIsMin(e, wi, m - 1);
      if !Skipped(wi, |e|, m - 1) && BlockNorm(e, wi, m - 1) < MinNorm(e, wi, m - 1).r {
        assert MinNorm(e, wi, m).r == BlockNorm(e, wi, m - 1);
      } else {
        assert MinNorm(e, wi, m) == MinNorm(e, wi, m - 1);
      }
    }
  }

  /** MaxNorm is the greatest block norm among the measured columns before
      m, and one of them attains it. */
  lemma {:induction false} MaxNormIsMax(e: seq<seq<real>>, wi: seq<real>, m: nat)
    requires Shapes(e, wi) && 0 < m <= |e|
    ensures forall j :: 0 <= j < m && !Skipped(wi, |e|, j) ==> BlockNorm(e, wi, j) <= MaxNorm(e, wi, m)
    ensures exists j :: 0 <= j < m && !Skipped(wi, |e|, j) && MaxNorm(e, wi, m) == BlockNorm(e, wi, j)
  {
    if m == 1 {
      assert !Skipped(wi, |e|, 0);
      BlockNormNonNegative(e, wi, 0);
      assert MaxNorm(e, wi, 1) == BlockNorm(e, wi, 0);
    } else {
      MaxNormIsMax(e, wi, m - 1);
      if !Skipped(wi, |e|, m - 1) && BlockNorm(e, wi, m - 1) > MaxNorm(e, wi, m - 1) {
        assert MaxNorm(e, wi, m) == BlockNorm(e, wi, m - 1);
      } else {
        assert MaxNorm(e, wi, m) == MaxNorm(e, wi, m - 1);
      }
    }
  }

  lemma BlockNormNonNegative(e: seq<seq<real>>, wi: seq<real>, j: nat)
    requires Shapes(e, wi) && j < |e|
    ensures BlockNorm(e, wi, j) >= 0.0
  {
    if PairStart(wi, |e|, j) {
      PairNormIsMax(e, j, |e|);
    } else {
      ColNormIsMax(e, j, |e|);
    }
  }

  /** The residual as written is the distance to one of the SMALLEST block
      norm only. */
  lemma AsWrittenIsLowestBlock(e: seq<seq<real>>, wi: seq<real>)
    requires Shapes(e, wi) && |e| > 0
    ensures exists j :: 0 <= j < |e| && !Skipped(wi, |e|, j) && AsWrittenResidual(e, wi) == Abs(BlockNorm(e, wi, j) - 1.0)
                        && forall j' :: 0 <= j' < |e| && !Skipped(wi, |e|, j') ==> BlockNorm(e, wi, j) <= BlockNorm(e, wi, j')
  {
    MinNormIsMin(e, wi, |e|);
    var j :| 0 <= j < |e| && !Skipped(wi, |e|, j) && MinNorm(e, wi, |e|).r == BlockNorm(e, wi, j);
    assert AsWrittenResidual(e, wi) == Abs(BlockNorm(e, wi, j) - 1.0);
  }

  /** The intended residual is the largest |max-norm - 1| over the measured
      eigenvectors: every one is within it and one attains it. */
  lemma ResidualIsWorstBlock(e: seq<seq<real>>, wi: seq<real>)
    requires Shapes(e, wi)
    ensures forall j :: 0 <= j < |e| && !Skipped(wi, |e|, j) ==> Abs(BlockNorm(e, wi, j) - 1.0) <= Residual(e, wi)
    ensures |e| > 0 ==> exists j :: 0 <= j < |e| && !Skipped(wi, |e|, j) && Residual(e, wi) == Abs(BlockNorm(e, wi, j) - 1.0)
  {
    if |e| > 0 {
      MinNormIsMin(e, wi, |e|);
      MaxNormIsMax(e, wi, |e|);
      var lo :| 0 <= lo < |e| && !Skipped(wi, |e|, lo) && MinNorm(e, wi, |e|).r == BlockNorm(e, wi, lo);
      var hi :| 0 <= hi < |e| && !Skipped(wi, |e|, hi) && MaxNorm(e, wi, |e|) == BlockNorm(e, wi, hi);
      if Abs(MinNorm(e, wi, |e|).r - 1.0) >= Abs(MaxNorm(e, wi, |e|) - 1.0) {
        assert Residual(e, wi) == Abs(BlockNorm(e, wi, lo) - 1.0);
      } else {
        assert Residual(e, wi) == Abs(BlockNorm(e, wi, hi) - 1.0);
      }
    }
  }

  /** The residual as written misses an eigenvector scaled too large: two
      real eigenvectors of norms 1 and 2 give 0, not 1. */
  lemma AsWrittenMissesLargest()
    ensures AsWrittenResidual([[1.0, 0.0], [0.0, 2.0]], [0.0, 0.0]) == 0.0
    ensures Residual([[1.0, 0.0], [0.0, 2.0]], [0.0, 0.0]) == 1.0
  {
    var e := [[1.0, 0.0], [0.0, 2.0]];
    var wi := [0.0, 0.0];
    assert !PairStart(wi, 2, 0) && !PairStart(wi, 2, 1);
    assert ColNorm(e, 0, 2) == 1.0;
    assert ColNorm(e, 1, 2) == 2.0;
    assert MinNorm(e, wi, 2) == Num(1.0);
    assert MaxNorm(e, wi, 2) == 2.0;
  }

  /** For eigenvalues in Schur canonical form the tracker pairs columns
      exactly as the eigenvalues pair: a column starts a pair when its
      imaginary part is positive and is skipped when it is negative. */
  lemma {:induction false} TrackerFollowsPairs(wi: seq<real>, j: nat)
    requires Canonical(wi) && j < |wi|
    ensures PairStart(wi, |wi|, j) <==> wi[j] > 0.0
    ensures Skipped(wi, |wi|, j) <==> wi[j] < 0.0
  {
    if j > 0 {
      TrackerFollowsPairs(wi, j - 1);
    }
    if wi[j] > 0.0 {
      assert j + 1 < |wi|;
    }
  }
}
