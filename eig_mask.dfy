/** The mask check of dtrevc3Test (lapack/testlapack/dtrevc3.go:186-190)
    and the convention under which Dtrevc3 rewrites the selection mask. */
module EigMask {
  import opened Schur
  import opened EigSelect

  /** The convention under which Dtrevc3 rewrites the selection mask it is
      given (that of LAPACK's DTREVC3): a real eigenvalue keeps its entry, a
      complex pair is reported at its first index, set when either index of
      the pair was selected, and cleared at its second index. */
  function Standardized(sel: seq<bool>, wi: seq<real>): (r: seq<bool>)
    requires |sel| == |wi|
    ensures |r| == |wi|
  {
    seq(|wi|, k requires 0 <= k < |wi| =>
      if wi[k] == 0.0 then sel[k]
      else if wi[k] > 0.0 then sel[k] || (k + 1 < |wi| && sel[k + 1])
      else false)
  }

  /** The expected mask of the test is what the convention makes of the mask
      the test passes in, and passing it in again would not change it. */
  lemma WantIsStandardized(wi: seq<real>)
    requires Canonical(wi)
    ensures Standardized(Selection(wi).selected, wi) == Selection(wi).selectedWant
    ensures Standardized(Selection(wi).selectedWant, wi) == Selection(wi).selectedWant
  {
    var p := Selection(wi);
    SelectionProperties(wi);
    forall r | 0 <= r < |wi|
      ensures Standardized(p.selected, wi)[r] == p.selectedWant[r]
      ensures Standardized(p.selectedWant, wi)[r] == p.selectedWant[r]
    {
      assert ChosenAt(wi, p.selected, p.selectedWant, Quota(|wi|), r);
      if wi[r] > 0.0 {
        assert ChosenAt(wi, p.selected, p.selectedWant, Quota(|wi|), r + 1);
      }
    }
  }

  /** The mask check of dtrevc3Test: the indices at which the mask Dtrevc3
      returned differs from the expected one, in increasing order, one
      reported error each. */
  method MaskMismatches(got: seq<bool>, want: seq<bool>) returns (bad: seq<nat>)
    requires |got| == |want|
    ensures forall i: nat :: i in bad <==> i < |got| && got[i] != want[i]
    ensures forall a, b :: 0 <= a < b < |bad| ==> bad[a] < bad[b]
    ensures bad == [] <==> got == want
  {
    bad := [];
    var i := 0;
    while i < |got|
      invariant 0 <= i <= |got|
      invariant forall x: nat :: x in bad <==> x < i && got[x] != want[x]
      invariant forall a, b :: 0 <= a < b < |bad| ==> bad[a] < bad[b]
      invariant forall a :: 0 <= a < |bad| ==> bad[a] < i
    {
      if got[i] != want[i] {
        bad := bad + [i];
      }
      i := i + 1;
    }
    if bad == [] {
      assert forall x :: 0 <= x < |got| ==> got[x] == want[x];
    } else {
      assert got[bad[0]] != want[bad[0]];
    }
  }
}
