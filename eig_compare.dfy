/** The comparison walk of dtrevc3Test (the right-eigenvector side): every
    eigenvector Dtrevc3 computed for the selected eigenvalues must equal,
    bit for bit, the one it computed when asked for all of them. The
    selected eigenvectors are packed side by side: a real eigenvalue takes
    one column, a complex pair two (real and imaginary part). */
module EigCompare {
  import opened Ieee
  import opened Schur
  import opened EigSelect

  /** Column k of `vSel` equals column j of `v` in the first n rows, under
      IEEE equality (so a NaN on either side is a mismatch). */
  ghost predicate ColumnAgrees(v: Matrix, vSel: Matrix, n: nat, j: int, k: int)
  {
    forall i :: 0 <= i < n ==> Equal(Entry(vSel, i, k), Entry(v, i, j))
  }

  /** The output columns starting at k hold the eigenvector of the
      eigenvalue at j: one column for a real one, two for a complex pair. */
  ghost predicate BlockAgrees(v: Matrix, vSel: Matrix, wi: seq<real>, j: nat, k: nat)
    requires j < |wi|
  {
    ColumnAgrees(v, vSel, |wi|, j, k) && (wi[j] != 0.0 ==> ColumnAgrees(v, vSel, |wi|, j + 1, k + 1))
  }

  /** Every eigenvalue selected before j has its eigenvector in the output
      columns that the earlier selections leave for it. */
  ghost predicate AgreesBefore(selected: seq<bool>, wi: seq<real>, v: Matrix, vSel: Matrix, j: nat)
    requires |selected| == |wi| && j <= |wi|
  {
    forall j' :: 0 <= j' < j && selected[j'] ==> BlockAgrees(v, vSel, wi, j', ColumnsBefore(selected, wi, j'))
  }

  /** The walk over the selection mask `selected` that Dtrevc3 returned:
      `v` holds all the eigenvectors, `vSel` the selected ones. It stops at
      the first element that differs, with k at the first output column of
      the eigenvector it was comparing. */
  method CompareSelected(selected: seq<bool>, wi: seq<real>, v: Matrix, vSel: Matrix) returns (matches: bool, k: nat)
    requires |selected| == |wi|
    ensures matches <==> AgreesBefore(selected, wi, v, vSel, |wi|)
    ensures matches ==> k == ColumnsBefore(selected, wi, |wi|)
    ensures !matches ==> exists j :: 0 <= j < |wi| && selected[j] && AgreesBefore(selected, wi, v, vSel, j)
                                   && k == ColumnsBefore(selected, wi, j) && !BlockAgrees(v, vSel, wi, j, k)
  {
    var n := |wi|;
    k := 0;
    matches := true;
    var j := 0;
    label walk: while j < n
      invariant 0 <= j <= n
      invariant k == ColumnsBefore(selected, wi, j)
      invariant AgreesBefore(selected, wi, v, vSel, j)
    {
      if selected[j] && wi[j] == 0.0 {
        var i := 0;
        while i < n
          invariant 0 <= i <= n
          invariant forall i' :: 0 <= i' < i ==> Equal(Entry(vSel, i', k), Entry(v, i', j))
        {
          if !Equal(Entry(vSel, i, k), Entry(v, i, j)) {
            matches := false;
            break walk;
          }
          i := i + 1;
        }
        k := k + 1;
      } else if selected[j] && wi[j] != 0.0 {
        var i, k1, j1 := 0, k + 1, j + 1;
        while i < n
          invariant 0 <= i <= n
          invariant forall i' :: 0 <= i' < i ==> Equal(Entry(vSel, i', k), Entry(v, i', j))
          invariant forall i' :: 0 <= i' < i ==> Equal(Entry(vSel, i', k1), Entry(v, i', j1))
        {
          if !Equal(Entry(vSel, i, k), Entry(v, i, j)) || !Equal(Entry(vSel, i, k1), Entry(v, i, j1)) {
            matches := false;
            break walk;
          }
          i := i + 1;
        }
        k := k + 2;
      }
      j := j + 1;
    }
  }

  /** The eigenvectors of two selected eigenvalues occupy disjoint output
      columns, in the order of the eigenvalues. */
  lemma {:induction false} ColumnsDisjoint(selected: seq<bool>, wi: seq<real>, j1: nat, j2: nat)
    requires |selected| == |wi| && j1 < j2 <= |wi| && selected[j1]
    ensures ColumnsBefore(selected, wi, j1) + Width(wi, j1) <= ColumnsBefore(selected, wi, j2)
    decreases j2
  {
    if j2 - 1 > j1 {
      ColumnsDisjoint(selected, wi, j1, j2 - 1);
    }
  }

  /** Row i of the selected eigenvectors of `v`, packed as the walk expects
      them, for the eigenvalues before j. */
  function PackedRow(v: Matrix, i: nat, selected: seq<bool>, wi: seq<real>, j: nat): (r: seq<Float>)
    requires |selected| == |wi| && j <= |wi|
    ensures |r| == ColumnsBefore(selected, wi, j)
  {
    if j == 0 then []
    else
      PackedRow(v, i, selected, wi, j - 1)
      + (if !selected[j - 1] then []
         else if wi[j - 1] == 0.0 then [Entry(v, i, j - 1)]
         else [Entry(v, i, j - 1), Entry(v, i, j)])
  }

  /** The selected eigenvectors of `v`, packed side by side: the output the
      walk is written to accept. */
  function Packed(v: Matrix, selected: seq<bool>, wi: seq<real>): (m: Matrix)
    requires |selected| == |wi|
    ensures |m| == |wi|
  {
    seq(|wi|, i requires 0 <= i < |wi| => PackedRow(v, i, selected, wi, |wi|))
  }

  lemma {:induction false} PackedRowHolds(v: Matrix, i: nat, selected: seq<bool>, wi: seq<real>, j: nat, j': nat)
    requires |selected| == |wi| && j' < j <= |wi| && selected[j']
    ensures ColumnsBefore(selected, wi, j') < |PackedRow(v, i, selected, wi, j)|
    ensures PackedRow(v, i, selected, wi, j)[ColumnsBefore(selected, wi, j')] == Entry(v, i, j')
    ensures wi[j'] != 0.0 ==> ColumnsBefore(selected, wi, j') + 1 < |PackedRow(v, i, selected, wi, j)|
    ensures wi[j'] != 0.0 ==> PackedRow(v, i, selected, wi, j)[ColumnsBefore(selected, wi, j') + 1] == Entry(v, i, j' + 1)
    decreases j
  {
    if j' < j - 1 {
      PackedRowHolds(v, i, selected, wi, j - 1, j');
      ColumnsDisjoint(selected, wi, j', j - 1);
    }
  }

  /** A NaN-free `v` and a mask that never opens a pair at the last index
      (true of every canonical mask in LAPACK's convention): the walk
      accepts exactly the packed selected eigenvectors. */
  lemma PackedAgrees(selected: seq<bool>, wi: seq<real>, v: Matrix)
    requires |selected| == |wi|
    requires forall j :: 0 <= j < |wi| && selected[j] && wi[j] != 0.0 ==> j + 1 < |wi|
    requires forall i, c :: 0 <= i < |wi| && 0 <= c < |wi| ==> !Entry(v, i, c).NaN?
    ensures AgreesBefore(selected, wi, v, Packed(v, selected, wi), |wi|)
  {
    var vSel := Packed(v, selected, wi);
    forall j | 0 <= j < |wi| && selected[j]
      ensures BlockAgrees(v, vSel, wi, j, ColumnsBefore(selected, wi, j))
    {
      var k := ColumnsBefore(selected, wi, j);
      forall i | 0 <= i < |wi|
        ensures Equal(Entry(vSel, i, k), Entry(v, i, j))
      {
        PackedRowHolds(v, i, selected, wi, |wi|, j);
        assert vSel[i] == PackedRow(v, i, selected, wi, |wi|);
        assert Entry(vSel, i, k) == Entry(v, i, j) && !Entry(v, i, j).NaN?;
      }
      if wi[j] != 0.0 {
        var k1, j1 := k + 1, j + 1;
        forall i | 0 <= i < |wi|
          ensures Equal(Entry(vSel, i, k1), Entry(v, i, j1))
        {
          PackedRowHolds(v, i, selected, wi, |wi|, j);
          assert vSel[i] == PackedRow(v, i, selected, wi, |wi|);
          assert Entry(vSel, i, k1) == Entry(v, i, j1) && !Entry(v, i, j1).NaN?;
        }
        assert ColumnAgrees(v, vSel, |wi|, j1, k1);
      }
    }
  }

  /** The expected mask of the test, on canonical eigenvalues, meets the
      condition of PackedAgrees and packs into exactly mWant columns. */
  lemma WantFitsWalk(wi: seq<real>)
    requires Canonical(wi)
    ensures var p := Selection(wi);
            && (forall j :: 0 <= j < |wi| && p.selectedWant[j] && wi[j] != 0.0 ==> wi[j] > 0.0 && j + 1 < |wi|)
            && ColumnsBefore(p.selectedWant, wi, |wi|) == p.nselr + 2 * p.nselc
  {
    var p := Selection(wi);
    SelectionProperties(wi);
    forall j | 0 <= j < |wi| && p.selectedWant[j] && wi[j] != 0.0
      ensures wi[j] > 0.0 && j + 1 < |wi|
    {
      assert ChosenAt(wi, p.selected, p.selectedWant, Quota(|wi|), j);
    }
  }
}
