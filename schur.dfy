/** The shape of the eigenvalues of a real upper quasi-triangular matrix in
    Schur canonical form, and the dense matrices the eigenvector test reads.

    `wi` holds the imaginary parts of the eigenvalues. A real eigenvalue has
    `wi[j] == 0`; a complex conjugate pair occupies two consecutive indices
    j, j+1 with `wi[j] > 0` and `wi[j+1] == -wi[j]`. */
module Schur {
  import opened Ieee

  /** The eigenvalue blocks of a Schur canonical form: every positive
      imaginary part opens a pair that the next index closes, and every
      negative one closes the pair the previous index opened. */
  predicate Canonical(wi: seq<real>)
  {
    && (forall j :: 0 <= j < |wi| && wi[j] > 0.0 ==> j + 1 < |wi| && wi[j + 1] == -wi[j])
    && (forall j :: 0 <= j < |wi| && wi[j] < 0.0 ==> 0 < j && wi[j - 1] == -wi[j])
  }

  /** Number of eigenvector columns the eigenvalue at j stands for when it
      is selected: one for a real eigenvalue, two (real and imaginary part)
      for a complex one. */
  function Width(wi: seq<real>, j: nat): (w: nat)
    requires j < |wi|
    ensures w == 1 || w == 2
    ensures w == 1 <==> wi[j] == 0.0
  {
    if wi[j] == 0.0 then 1 else 2
  }

  /** A dense matrix as its rows. An element outside the stored rectangle
      reads as NaN: inside a row's stride that is the test's NaN padding. In
      the strided buffer a column past the stride would be the next row's
      element, or out of range on the last row; here it is NaN as well. */
  type Matrix = seq<seq<Float>>

  function Entry(m: Matrix, i: int, j: int): (x: Float)
    ensures 0 <= i < |m| && 0 <= j < |m[i]| ==> x == m[i][j]
    ensures !(0 <= i < |m| && 0 <= j < |m[i]|) ==> x == NaN
  {
    if 0 <= i < |m| && 0 <= j < |m[i]| then m[i][j] else NaN
  }
}
