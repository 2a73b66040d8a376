/** Part (2) of dtrevc3Test in lapack/testlapack/dtrevc3.go: following the
    DCHKHS test of reference LAPACK, the test asks Dtrevc3 for the
    eigenvectors of the last max(1, n/4) real eigenvalues and the last
    max(1, n/4) complex pairs, and states which selection mask and how many
    columns it expects back. */
module EigSelect {
  import opened Schur

  /** How many real eigenvalues, and separately how many complex pairs, the
      test selects: `max(1, n/4)`. */
  function Quota(n: nat): (q: nat)
    ensures q >= 1 && q >= n / 4
    ensures q == 1 || q == n / 4
  {
    if n / 4 > 1 then n / 4 else 1
  }

  function Min(a: nat, b: nat): nat
  {
    if a <= b then a else b
  }

  function CountTrue(s: seq<bool>): nat
  {
    if |s| == 0 then 0 else (if s[0] then 1 else 0) + CountTrue(s[1..])
  }

  /** Number of real eigenvalues (zero imaginary part) in `s`. */
  function CountReal(s: seq<real>): nat
  {
    if |s| == 0 then 0 else (if s[0] == 0.0 then 1 else 0) + CountReal(s[1..])
  }

  /** Number of negative imaginary parts in `s`: in canonical form, the
      number of complex pairs that close inside `s`. */
  function CountClosing(s: seq<real>): nat
  {
    if |s| == 0 then 0 else (if s[0] < 0.0 then 1 else 0) + CountClosing(s[1..])
  }

  /** Number of eigenvector columns that the eigenvalues before index j
      selected in `mask` occupy, packed side by side in the order of j. */
  function ColumnsBefore(mask: seq<bool>, wi: seq<real>, j: nat): nat
    requires |mask| == |wi| && j <= |wi|
  {
    if j == 0 then 0
    else ColumnsBefore(mask, wi, j - 1) + (if mask[j - 1] then Width(wi, j - 1) else 0)
  }

  lemma {:induction false} CountTrueSet(s: seq<bool>, i: nat)
    requires i < |s| && !s[i]
    ensures CountTrue(s[i := true]) == CountTrue(s) + 1
    decreases |s|
  {
    if i > 0 {
      assert s[i := true][1..] == s[1..][i - 1 := true];
      CountTrueSet(s[1..], i - 1);
    } else {
      assert s[i := true][1..] == s[1..];
    }
  }

  lemma {:induction false} ColumnsSet(mask: seq<bool>, wi: seq<real>, i: nat, j: nat)
    requires |mask| == |wi| && i < j <= |wi| && !mask[i]
    ensures ColumnsBefore(mask[i := true], wi, j) == ColumnsBefore(mask, wi, j) + Width(wi, i)
    decreases j
  {
    if j - 1 > i {
      ColumnsSet(mask, wi, i, j - 1);
    } else {
      ColumnsUnchanged(mask, mask[i := true], wi, i);
    }
  }

  /** The columns before j depend only on the mask entries before j. */
  lemma {:induction false} ColumnsUnchanged(m1: seq<bool>, m2: seq<bool>, wi: seq<real>, j: nat)
    requires |m1| == |wi| && |m2| == |wi| && j <= |wi|
    requires forall r :: 0 <= r < j ==> m1[r] == m2[r]
    ensures ColumnsBefore(m1, wi, j) == ColumnsBefore(m2, wi, j)
    decreases j
  {
    if j > 0 {
      ColumnsUnchanged(m1, m2, wi, j - 1);
    }
  }

  lemma {:induction false} NoneCounted(s: seq<bool>)
    requires forall r :: 0 <= r < |s| ==> !s[r]
    ensures CountTrue(s) == 0
    decreases |s|
  {
    if |s| > 0 {
      NoneCounted(s[1..]);
    }
  }

  lemma {:induction false} NoColumns(mask: seq<bool>, wi: seq<real>, j: nat)
    requires |mask| == |wi| && j <= |wi|
    requires forall r :: 0 <= r < |mask| ==> !mask[r]
    ensures ColumnsBefore(mask, wi, j) == 0
    decreases j
  {
    if j > 0 {
      NoColumns(mask, wi, j - 1);
    }
  }

  lemma CountStep(s: seq<real>, j: nat)
    requires j < |s|
    ensures CountReal(s[j..]) == (if s[j] == 0.0 then 1 else 0) + CountReal(s[j + 1..])
    ensures CountClosing(s[j..]) == (if s[j] < 0.0 then 1 else 0) + CountClosing(s[j + 1..])
  {
    assert s[j..][1..] == s[j + 1..];
  }

  /** What the builder promises about index r when the eigenvalues are in
      canonical form: a real eigenvalue other than the first is selected
      exactly when fewer than q real eigenvalues lie above it; a pair is
      selected (at both of its indices) exactly when fewer than q pairs
      close above it; the expected mask keeps the lower index of a pair and
      clears the higher one. */
  predicate ChosenAt(wi: seq<real>, selected: seq<bool>, selectedWant: seq<bool>, q: nat, r: nat)
    requires |selected| == |wi| && |selectedWant| == |wi| && r < |wi|
  {
    && (wi[r] == 0.0 ==> selected[r] == (0 < r && CountReal(wi[r + 1..]) < q))
    && (wi[r] < 0.0 ==> selected[r] == (CountClosing(wi[r + 1..]) < q))
    && (wi[r] > 0.0 ==> r + 1 < |wi| && selected[r] == selected[r + 1])
    && selectedWant[r] == (selected[r] && wi[r] >= 0.0)
  }

  /** The state of the selection loop at the head of an iteration with
      index j: everything at or below j is untouched, and the counters
      account for the entries set above j and stay within the quota. */
  predicate Counted(wi: seq<real>, sel: seq<bool>, want: seq<bool>, j: int, nselr: nat, nselc: nat)
  {
    var n := |wi|;
    && |sel| == n && |want| == n && -1 <= j < n
    && (forall r :: 0 <= r <= j ==> !sel[r] && !want[r])
    && nselr <= Quota(n) && nselc <= Quota(n)
    && CountTrue(sel) == nselr + 2 * nselc
    && CountTrue(want) == nselr + nselc
    && (forall r :: 0 <= r < n && want[r] ==> sel[r])
    && (forall r :: 0 <= r < n && sel[r] && !want[r] ==> 0 < r && wi[r] != 0.0 && sel[r - 1] && want[r - 1])
    && (n > 0 && sel[0] ==> 1 < n && wi[1] != 0.0 && sel[1])
    && (n <= 1 ==> nselr == 0 && nselc == 0)
  }

  /** The further state of the loop in canonical form: j is the top of an
      eigenvalue block, the counters are the quota-capped numbers of real
      eigenvalues and of pairs above j, and the selected columns add up. */
  predicate Aligned(wi: seq<real>, want: seq<bool>, j: int, nselr: nat, nselc: nat)
    requires |want| == |wi| && -1 <= j < |wi|
  {
    var n, q := |wi|, Quota(|wi|);
    && (j + 1 < n ==> wi[j + 1] >= 0.0)
    && (j < 0 ==> n == 0 || wi[0] > 0.0)
    && nselr == Min(q, CountReal(wi[j + 1..]))
    && nselc == Min(q, CountClosing(wi[j + 1..]))
    && ColumnsBefore(want, wi, n) == nselr + 2 * nselc
  }

  /** In canonical form, every index above j is chosen as ChosenAt says. */
  predicate ChosenAbove(wi: seq<real>, sel: seq<bool>, want: seq<bool>, j: int)
    requires |sel| == |wi| && |want| == |wi|
  {
    forall r :: j < r < |wi| && 0 <= r ==> ChosenAt(wi, sel, want, Quota(|wi|), r)
  }

  lemma ScanStarts(wi: seq<real>, sel: seq<bool>, want: seq<bool>)
    requires |sel| == |wi| && |want| == |wi|
    requires forall r :: 0 <= r < |wi| ==> !sel[r] && !want[r]
    ensures Counted(wi, sel, want, |wi| - 1, 0, 0)
    ensures Aligned(wi, want, |wi| - 1, 0, 0) && ChosenAbove(wi, sel, want, |wi| - 1)
  {
    NoneCounted(sel);
    NoneCounted(want);
    NoColumns(want, wi, |wi|);
  }

  /** ChosenAt at r reads the masks only at r and r + 1. */
  lemma ChosenKept(wi: seq<real>, sel: seq<bool>, want: seq<bool>, sel2: seq<bool>, want2: seq<bool>, q: nat, r: nat)
    requires |sel| == |wi| && |want| == |wi| && |sel2| == |wi| && |want2| == |wi| && r < |wi|
    requires sel2[r] == sel[r] && want2[r] == want[r] && (r + 1 < |wi| ==> sel2[r + 1] == sel[r + 1])
    ensures ChosenAt(wi, sel2, want2, q, r) == ChosenAt(wi, sel, want, q, r)
  {
  }

  /** One iteration at a real eigenvalue: picked while the real quota lasts. */
  lemma RealCounted(wi: seq<real>, sel: seq<bool>, want: seq<bool>, j: int, nselr: nat, nselc: nat)
    requires Counted(wi, sel, want, j, nselr, nselc) && j > 0 && wi[j] == 0.0
    ensures nselr < Quota(|wi|) ==> Counted(wi, sel[j := true], want[j := true], j - 1, nselr + 1, nselc)
    ensures nselr >= Quota(|wi|) ==> Counted(wi, sel, want, j - 1, nselr, nselc)
  {
    if nselr < Quota(|wi|) {
      CountTrueSet(sel, j);
      CountTrueSet(want, j);
    }
  }

  lemma RealAligned(wi: seq<real>, sel: seq<bool>, want: seq<bool>, j: int, nselr: nat, nselc: nat)
    requires Counted(wi, sel, want, j, nselr, nselc) && j > 0 && wi[j] == 0.0
    requires Canonical(wi) && Aligned(wi, want, j, nselr, nselc) && ChosenAbove(wi, sel, want, j)
    ensures nselr < Quota(|wi|) ==>
              Aligned(wi, want[j := true], j - 1, nselr + 1, nselc) && ChosenAbove(wi, sel[j := true], want[j := true], j - 1)
    ensures nselr >= Quota(|wi|) ==> Aligned(wi, want, j - 1, nselr, nselc) && ChosenAbove(wi, sel, want, j - 1)
  {
    var n, q := |wi|, Quota(|wi|);
    CountStep(wi, j);
    if nselr < q {
      var sel2, want2 := sel[j := true], want[j := true];
      ColumnsSet(want, wi, j, n);
      forall r | j < r < n
        ensures ChosenAt(wi, sel2, want2, q, r)
      {
        ChosenKept(wi, sel, want, sel2, want2, q, r);
      }
      assert ChosenAt(wi, sel2, want2, q, j);
    } else {
      assert ChosenAt(wi, sel, want, q, j);
    }
  }

  /** One iteration at a complex eigenvalue: the pair j-1, j is picked while
      the pair quota lasts, and the scan skips over both indices. */
  lemma PairCounted(wi: seq<real>, sel: seq<bool>, want: seq<bool>, j: int, nselr: nat, nselc: nat)
    requires Counted(wi, sel, want, j, nselr, nselc) && j > 0 && wi[j] != 0.0
    ensures nselc < Quota(|wi|) ==>
              Counted(wi, sel[j := true][j - 1 := true], want[j := false][j - 1 := true], j - 2, nselr, nselc + 1)
    ensures nselc >= Quota(|wi|) ==> Counted(wi, sel, want, j - 2, nselr, nselc)
  {
    if nselc < Quota(|wi|) {
      assert want[j := false] == want;
      CountTrueSet(sel, j);
      CountTrueSet(sel[j := true], j - 1);
      CountTrueSet(want, j - 1);
    }
  }

  /** In canonical form a complex eigenvalue at the top of a block closes the
      pair j-1, j. */
  lemma PairAtTop(wi: seq<real>, j: int)
    requires Canonical(wi) && 0 < j < |wi| && wi[j] != 0.0
    requires j + 1 < |wi| ==> wi[j + 1] >= 0.0
    ensures wi[j] < 0.0 && wi[j - 1] > 0.0
  {
  }

  lemma PairPickedAligned(wi: seq<real>, want: seq<bool>, j: int, nselr: nat, nselc: nat)
    requires |want| == |wi| && 0 < j < |wi| && wi[j] < 0.0 && wi[j - 1] > 0.0 && !want[j] && !want[j - 1]
    requires Aligned(wi, want, j, nselr, nselc) && nselc < Quota(|wi|)
    ensures Aligned(wi, want[j := false][j - 1 := true], j - 2, nselr, nselc + 1)
  {
    CountStep(wi, j);
    CountStep(wi, j - 1);
    assert want[j := false][j - 1 := true] == want[j - 1 := true];
    ColumnsSet(want, wi, j - 1, |wi|);
  }

  lemma PairPickedChosen(wi: seq<real>, sel: seq<bool>, want: seq<bool>, j: int, nselc: nat)
    requires |sel| == |wi| && |want| == |wi| && 0 < j < |wi| && wi[j] < 0.0 && wi[j - 1] > 0.0
    requires ChosenAbove(wi, sel, want, j) && nselc == Min(Quota(|wi|), CountClosing(wi[j + 1..])) && nselc < Quota(|wi|)
    ensures ChosenAbove(wi, sel[j := true][j - 1 := true], want[j := false][j - 1 := true], j - 2)
  {
    var n, q := |wi|, Quota(|wi|);
    var sel2, want2 := sel[j := true][j - 1 := true], want[j := false][j - 1 := true];
    forall r | j < r < n
      ensures ChosenAt(wi, sel2, want2, q, r)
    {
      ChosenKept(wi, sel, want, sel2, want2, q, r);
    }
    assert ChosenAt(wi, sel2, want2, q, j);
    assert ChosenAt(wi, sel2, want2, q, j - 1);
  }

  lemma PairSkippedAligned(wi: seq<real>, sel: seq<bool>, want: seq<bool>, j: int, nselr: nat, nselc: nat)
    requires |sel| == |wi| && |want| == |wi| && 0 < j < |wi| && wi[j] < 0.0 && wi[j - 1] > 0.0
    requires !sel[j] && !want[j] && !sel[j - 1] && !want[j - 1]
    requires Aligned(wi, want, j, nselr, nselc) && ChosenAbove(wi, sel, want, j) && nselc >= Quota(|wi|)
    ensures Aligned(wi, want, j - 2, nselr, nselc) && ChosenAbove(wi, sel, want, j - 2)
  {
    var q := Quota(|wi|);
    CountStep(wi, j);
    CountStep(wi, j - 1);
    assert ChosenAt(wi, sel, want, q, j);
    assert ChosenAt(wi, sel, want, q, j - 1);
  }

  /** The values the selection loop maintains. */
  datatype Picks = Picks(selected: seq<bool>, selectedWant: seq<bool>, nselr: nat, nselc: nat)

  /** Where one iteration at j > 0 moves the scan: past a real eigenvalue,
      or past both indices of a pair. */
  function NextIndex(wi: seq<real>, j: int): int
    requires 0 < j < |wi|
  {
    if wi[j] == 0.0 then j - 1 else j - 2
  }

  /** The picks after one iteration at j > 0. */
  function NextPicks(wi: seq<real>, j: int, p: Picks): (r: Picks)
    requires |p.selected| == |wi| && |p.selectedWant| == |wi| && 0 < j < |wi|
    ensures |r.selected| == |wi| && |r.selectedWant| == |wi|
  {
    if wi[j] == 0.0 then
      if p.nselr < Quota(|wi|)
      then Picks(p.selected[j := true], p.selectedWant[j := true], p.nselr + 1, p.nselc)
      else p
    else
      if p.nselc < Quota(|wi|)
      then Picks(p.selected[j := true][j - 1 := true], p.selectedWant[j := false][j - 1 := true], p.nselr, p.nselc + 1)
      else p
  }

  /** The selection loop from index j on: the picks it ends with when it
      resumes at j with picks p. */
  function ScanFrom(wi: seq<real>, j: int, p: Picks): (r: Picks)
    requires |p.selected| == |wi| && |p.selectedWant| == |wi| && j < |wi|
    ensures |r.selected| == |wi| && |r.selectedWant| == |wi|
    decreases j
  {
    if j <= 0 then p else ScanFrom(wi, NextIndex(wi, j), NextPicks(wi, j, p))
  }

  /** The picks of the whole loop, started from two all-false masks. */
  function Selection(wi: seq<real>): Picks
  {
    ScanFrom(wi, |wi| - 1, Picks(seq(|wi|, _ => false), seq(|wi|, _ => false), 0, 0))
  }

  /** What the test relies on of any selection it builds. */
  predicate ScanLaws(wi: seq<real>, p: Picks)
  {
    var n, q := |wi|, Quota(|wi|);
    && |p.selected| == n && |p.selectedWant| == n
    && p.nselr <= q && p.nselc <= q
    // each pick sets fresh entries of the input mask: one per real, two per pair
    && CountTrue(p.selected) == p.nselr + 2 * p.nselc
    && CountTrue(p.selectedWant) == p.nselr + p.nselc
    && (forall r :: 0 <= r < n && p.selectedWant[r] ==> p.selected[r])
    && (forall r :: 0 <= r < n && p.selected[r] && !p.selectedWant[r] ==>
          0 < r && wi[r] != 0.0 && p.selected[r - 1] && p.selectedWant[r - 1])
    // index 0 is never examined on its own
    && (n > 0 && p.selected[0] ==> 1 < n && wi[1] != 0.0 && p.selected[1])
    && (n <= 1 ==> p.nselr + 2 * p.nselc == 0)
  }

  /** What the selection is when the eigenvalues are in canonical form. */
  predicate CanonicalLaws(wi: seq<real>, p: Picks)
    requires |p.selected| == |wi| && |p.selectedWant| == |wi|
  {
    var n, q := |wi|, Quota(|wi|);
    && (forall r :: 0 <= r < n ==> ChosenAt(wi, p.selected, p.selectedWant, q, r))
    && (n > 0 ==> p.nselr == Min(q, CountReal(wi[1..])) && p.nselc == Min(q, CountClosing(wi[1..])))
    && ColumnsBefore(p.selectedWant, wi, n) == p.nselr + 2 * p.nselc
  }

  /** One iteration keeps the loop state Counted. */
  lemma StepCounted(wi: seq<real>, j: int, p: Picks)
    requires Counted(wi, p.selected, p.selectedWant, j, p.nselr, p.nselc) && j > 0
    ensures var p' := NextPicks(wi, j, p);
            Counted(wi, p'.selected, p'.selectedWant, NextIndex(wi, j), p'.nselr, p'.nselc)
  {
    if wi[j] == 0.0 {
      RealCounted(wi, p.selected, p.selectedWant, j, p.nselr, p.nselc);
    } else {
      PairCounted(wi, p.selected, p.selectedWant, j, p.nselr, p.nselc);
    }
  }

  /** One iteration keeps the loop state Aligned in canonical form. */
  lemma StepAligned(wi: seq<real>, j: int, p: Picks)
    requires Counted(wi, p.selected, p.selectedWant, j, p.nselr, p.nselc) && j > 0
    requires Canonical(wi) && Aligned(wi, p.selectedWant, j, p.nselr, p.nselc)
    requires ChosenAbove(wi, p.selected, p.selectedWant, j)
    ensures var p' := NextPicks(wi, j, p);
            && Aligned(wi, p'.selectedWant, NextIndex(wi, j), p'.nselr, p'.nselc)
            && ChosenAbove(wi, p'.selected, p'.selectedWant, NextIndex(wi, j))
  {
    var sel, want, nselr, nselc := p.selected, p.selectedWant, p.nselr, p.nselc;
    if wi[j] == 0.0 {
      RealAligned(wi, sel, want, j, nselr, nselc);
    } else {
      PairAtTop(wi, j);
      if nselc < Quota(|wi|) {
        PairPickedAligned(wi, want, j, nselr, nselc);
        PairPickedChosen(wi, sel, want, j, nselc);
      } else {
        PairSkippedAligned(wi, sel, want, j, nselr, nselc);
      }
    }
  }

  lemma {:induction false} ScanKeepsCounted(wi: seq<real>, j: int, p: Picks)
    requires Counted(wi, p.selected, p.selectedWant, j, p.nselr, p.nselc)
    ensures ScanLaws(wi, ScanFrom(wi, j, p))
    decreases j
  {
    if j > 0 {
      StepCounted(wi, j, p);
      ScanKeepsCounted(wi, NextIndex(wi, j), NextPicks(wi, j, p));
    }
  }

  /** When the scan stops in canonical form, the whole of `wi` has been
      accounted for. */
  lemma ScanEndsAligned(wi: seq<real>, j: int, p: Picks)
    requires Counted(wi, p.selected, p.selectedWant, j, p.nselr, p.nselc) && j <= 0
    requires Canonical(wi) && Aligned(wi, p.selectedWant, j, p.nselr, p.nselc)
    requires ChosenAbove(wi, p.selected, p.selectedWant, j)
    ensures CanonicalLaws(wi, p)
  {
    if |wi| > 0 {
      CountStep(wi, 0);
      if j == 0 {
        assert !p.selected[0] && !p.selectedWant[0];
        assert ChosenAt(wi, p.selected, p.selectedWant, Quota(|wi|), 0);
      }
    }
  }

  lemma {:induction false} ScanKeepsAligned(wi: seq<real>, j: int, p: Picks)
    requires Counted(wi, p.selected, p.selectedWant, j, p.nselr, p.nselc)
    requires Canonical(wi) && Aligned(wi, p.selectedWant, j, p.nselr, p.nselc)
    requires ChosenAbove(wi, p.selected, p.selectedWant, j)
    ensures CanonicalLaws(wi, ScanFrom(wi, j, p))
    decreases j
  {
    if j <= 0 {
      ScanEndsAligned(wi, j, p);
    } else {
      StepCounted(wi, j, p);
      StepAligned(wi, j, p);
      ScanKeepsAligned(wi, NextIndex(wi, j), NextPicks(wi, j, p));
    }
  }

  /** The selection of dtrevc3Test: quotas, column count, the expected mask
      and, in canonical form, exactly which eigenvalues are chosen. */
  lemma SelectionProperties(wi: seq<real>)
    ensures ScanLaws(wi, Selection(wi))
    ensures Canonical(wi) ==> CanonicalLaws(wi, Selection(wi))
  {
    var none := seq(|wi|, _ => false);
    ScanStarts(wi, none, none);
    ScanKeepsCounted(wi, |wi| - 1, Picks(none, none, 0, 0));
    if Canonical(wi) {
      ScanKeepsAligned(wi, |wi| - 1, Picks(none, none, 0, 0));
    }
  }

  /** The selection loop of dtrevc3Test. It walks j down from n-1 while
      j > 0, picking a real eigenvalue at j (step 1) or the pair j-1, j
      (step 2) while the respective quota is not used up. */
  method SelectLast(wi: seq<real>)
    returns (selected: seq<bool>, selectedWant: seq<bool>, nselr: nat, nselc: nat, mWant: nat)
    ensures Picks(selected, selectedWant, nselr, nselc) == Selection(wi)
    ensures mWant == nselr + 2 * nselc
    ensures CountTrue(selected) == mWant
    ensures Canonical(wi) ==> ColumnsBefore(selectedWant, wi, |wi|) == mWant
  {
    var n := |wi|;
    var q := Quota(n);
    var sel := new bool[n](_ => false);
    var want := new bool[n](_ => false);
    nselr, nselc := 0, 0;
    assert sel[..] == seq(n, _ => false) && want[..] == seq(n, _ => false);
    var j: int := n - 1;
    while j > 0
      invariant -1 <= j < n
      invariant ScanFrom(wi, j, Picks(sel[..], want[..], nselr, nselc)) == Selection(wi)
      decreases j
    {
      ghost var p0 := Picks(sel[..], want[..], nselr, nselc);
      ghost var j0 := j;
      if wi[j] == 0.0 {
        if nselr < q {
          nselr := nselr + 1;
          sel[j] := true;
          want[j] := true;
          assert sel[..] == p0.selected[j := true] && want[..] == p0.selectedWant[j := true];
        }
        j := j - 1;
      } else {
        if nselc < q {
          nselc := nselc + 1;
          sel[j] := true;
          sel[j - 1] := true;
          want[j] := false;
          want[j - 1] := true;
          assert sel[..] == p0.selected[j := true][j - 1 := true];
          assert want[..] == p0.selectedWant[j := false][j - 1 := true];
        }
        j := j - 2;
      }
      assert Picks(sel[..], want[..], nselr, nselc) == NextPicks(wi, j0, p0) && j == NextIndex(wi, j0);
    }
    mWant := nselr + 2 * nselc;
    selected, selectedWant := sel[..], want[..];
    assert CountTrue(selected) == mWant && (Canonical(wi) ==> ColumnsBefore(selectedWant, wi, n) == mWant) by {
      SelectionProperties(wi);
    }
  }
}
