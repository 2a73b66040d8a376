/** The expected outputs of stat/roc_test.go and stat/roc_example_test.go,
    proved of the reference definition and so, through its postcondition, of
    the method ROC. Rates are exact here, where the Go tests compare within
    1e-14 and treat NaN as equal to NaN. */
module RocCases {
  import opened Ieee
  import opened Roc

  /** Entry k of a class's rates from the two cumulative weights it uses. */
  lemma RateEntry(classes: seq<bool>, weights: Option<seq<real>>, positive: bool, k: nat, count: real, total: real)
    requires Matches(classes, weights) && k <= |classes|
    requires ClassWeight(classes, weights, positive, |classes| - k) == count
    requires ClassWeight(classes, weights, positive, |classes|) == total
    ensures ClassRates(classes, weights, positive)[k] == Rate(count, total)
  {
  }

  /** The true positive rates of Unweighted. */
  lemma UnweightedTpr()
    ensures ClassRates([false, true, false, true, true, true], None, true)
         == [Num(0.0), Num(0.25), Num(0.5), Num(0.75), Num(0.75), Num(1.0), Num(1.0)]
  {
    var c, w := [false, true, false, true, true, true], None;
    assert ClassWeight(c, w, true, 1) == 0.0;
    assert ClassWeight(c, w, true, 2) == 1.0;
    assert ClassWeight(c, w, true, 3) == 1.0;
    assert ClassWeight(c, w, true, 4) == 2.0;
    assert ClassWeight(c, w, true, 5) == 3.0;
    assert ClassWeight(c, w, true, 6) == 4.0;
    RateEntry(c, w, true, 0, 4.0, 4.0);
    RateEntry(c, w, true, 1, 3.0, 4.0);
    RateEntry(c, w, true, 2, 2.0, 4.0);
    RateEntry(c, w, true, 3, 1.0, 4.0);
    RateEntry(c, w, true, 4, 1.0, 4.0);
    RateEntry(c, w, true, 5, 0.0, 4.0);
    RateEntry(c, w, true, 6, 0.0, 4.0);
  }

  /** The false positive rates of Unweighted. */
  lemma UnweightedFpr()
    ensures ClassRates([false, true, false, true, true, true], None, false)
         == [Num(0.0), Num(0.0), Num(0.0), Num(0.0), Num(0.5), Num(0.5), Num(1.0)]
  {
    var c, w := [false, true, false, true, true, true], None;
    assert ClassWeight(c, w, false, 1) == 1.0;
    assert ClassWeight(c, w, false, 2) == 1.0;
    assert ClassWeight(c, w, false, 3) == 2.0;
    assert ClassWeight(c, w, false, 4) == 2.0;
    assert ClassWeight(c, w, false, 5) == 2.0;
    assert ClassWeight(c, w, false, 6) == 2.0;
    RateEntry(c, w, false, 0, 2.0, 2.0);
    RateEntry(c, w, false, 1, 2.0, 2.0);
    RateEntry(c, w, false, 2, 2.0, 2.0);
    RateEntry(c, w, false, 3, 2.0, 2.0);
    RateEntry(c, w, false, 4, 1.0, 2.0);
    RateEntry(c, w, false, 5, 1.0, 2.0);
    RateEntry(c, w, false, 6, 0.0, 2.0);
  }

  /** Case 0 of stat/roc_test.go and ExampleROC_unweighted. */
  lemma Unweighted()
    ensures RocSpec([false, true, false, true, true, true], None)
         == Curves([Num(0.0), Num(0.25), Num(0.5), Num(0.75), Num(0.75), Num(1.0), Num(1.0)],
                   [Num(0.0), Num(0.0), Num(0.0), Num(0.0), Num(0.5), Num(0.5), Num(1.0)])
  {
    UnweightedTpr();
    UnweightedFpr();
  }

  /** The true positive rates of Weighted. */
  lemma WeightedTpr()
    ensures ClassRates([false, true, false, true, true, true], Some([4.0, 1.0, 6.0, 3.0, 2.0, 2.0]), true)
         == [Num(0.0), Num(0.25), Num(0.5), Num(0.875), Num(0.875), Num(1.0), Num(1.0)]
  {
    var c, w := [false, true, false, true, true, true], Some([4.0, 1.0, 6.0, 3.0, 2.0, 2.0]);
    assert ClassWeight(c, w, true, 1) == 0.0;
    assert ClassWeight(c, w, true, 2) == 1.0;
    assert ClassWeight(c, w, true, 3) == 1.0;
    assert ClassWeight(c, w, true, 4) == 4.0;
    assert ClassWeight(c, w, true, 5) == 6.0;
    assert ClassWeight(c, w, true, 6) == 8.0;
    RateEntry(c, w, true, 0, 8.0, 8.0);
    RateEntry(c, w, true, 1, 6.0, 8.0);
    RateEntry(c, w, true, 2, 4.0, 8.0);
    RateEntry(c, w, true, 3, 1.0, 8.0);
    RateEntry(c, w, true, 4, 1.0, 8.0);
    RateEntry(c, w, true, 5, 0.0, 8.0);
    RateEntry(c, w, true, 6, 0.0, 8.0);
  }

  /** The false positive rates of Weighted. */
  lemma WeightedFpr()
    ensures ClassRates([false, true, false, true, true, true], Some([4.0, 1.0, 6.0, 3.0, 2.0, 2.0]), false)
         == [Num(0.0), Num(0.0), Num(0.0), Num(0.0), Num(0.6), Num(0.6), Num(1.0)]
  {
    var c, w := [false, true, false, true, true, true], Some([4.0, 1.0, 6.0, 3.0, 2.0, 2.0]);
    assert ClassWeight(c, w, false, 1) == 4.0;
    assert ClassWeight(c, w, false, 2) == 4.0;
    assert ClassWeight(c, w, false, 3) == 10.0;
    assert ClassWeight(c, w, false, 4) == 10.0;
    assert ClassWeight(c, w, false, 5) == 10.0;
    assert ClassWeight(c, w, false, 6) == 10.0;
    RateEntry(c, w, false, 0, 10.0, 10.0);
    RateEntry(c, w, false, 1, 10.0, 10.0);
    RateEntry(c, w, false, 2, 10.0, 10.0);
    RateEntry(c, w, false, 3, 10.0, 10.0);
    RateEntry(c, w, false, 4, 4.0, 10.0);
    RateEntry(c, w, false, 5, 4.0, 10.0);
    RateEntry(c, w, false, 6, 0.0, 10.0);
  }

  /** Case 1, ExampleROC_weighted and, once sorted by score, ExampleROC_unsorted. */
  lemma Weighted()
    ensures RocSpec([false, true, false, true, true, true], Some([4.0, 1.0, 6.0, 3.0, 2.0, 2.0]))
         == Curves([Num(0.0), Num(0.25), Num(0.5), Num(0.875), Num(0.875), Num(1.0), Num(1.0)],
                   [Num(0.0), Num(0.0), Num(0.0), Num(0.0), Num(0.6), Num(0.6), Num(1.0)])
  {
    WeightedTpr();
    WeightedFpr();
  }

  /** Case 2 and ExampleROC_aUC. */
  lemma Alternating()
    ensures RocSpec([true, false, true, false], None)
         == Curves([Num(0.0), Num(0.0), Num(0.5), Num(0.5), Num(1.0)],
                   [Num(0.0), Num(0.5), Num(0.5), Num(1.0), Num(1.0)])
  {
    var c, w := [true, false, true, false], None;
    assert ClassWeight(c, w, true, 1) == 1.0;
    assert ClassWeight(c, w, true, 2) == 1.0;
    assert ClassWeight(c, w, true, 3) == 2.0;
    assert ClassWeight(c, w, true, 4) == 2.0;
    RateEntry(c, w, true, 0, 2.0, 2.0);
    RateEntry(c, w, true, 1, 2.0, 2.0);
    RateEntry(c, w, true, 2, 1.0, 2.0);
    RateEntry(c, w, true, 3, 1.0, 2.0);
    RateEntry(c, w, true, 4, 0.0, 2.0);
    assert ClassWeight(c, w, false, 1) == 0.0;
    assert ClassWeight(c, w, false, 2) == 1.0;
    assert ClassWeight(c, w, false, 3) == 1.0;
    assert ClassWeight(c, w, false, 4) == 2.0;
    RateEntry(c, w, false, 0, 2.0, 2.0);
    RateEntry(c, w, false, 1, 1.0, 2.0);
    RateEntry(c, w, false, 2, 1.0, 2.0);
    RateEntry(c, w, false, 3, 0.0, 2.0);
    RateEntry(c, w, false, 4, 0.0, 2.0);
  }

  /** Case 3. */
  lemma NegativesFirst()
    ensures RocSpec([false, false, true, true], None)
         == Curves([Num(0.0), Num(0.5), Num(1.0), Num(1.0), Num(1.0)],
                   [Num(0.0), Num(0.0), Num(0.0), Num(0.5), Num(1.0)])
  {
    var c, w := [false, false, true, true], None;
    assert ClassWeight(c, w, true, 1) == 0.0;
    assert ClassWeight(c, w, true, 2) == 0.0;
    assert ClassWeight(c, w, true, 3) == 1.0;
    assert ClassWeight(c, w, true, 4) == 2.0;
    RateEntry(c, w, true, 0, 2.0, 2.0);
    RateEntry(c, w, true, 1, 1.0, 2.0);
    RateEntry(c, w, true, 2, 0.0, 2.0);
    RateEntry(c, w, true, 3, 0.0, 2.0);
    RateEntry(c, w, true, 4, 0.0, 2.0);
    assert ClassWeight(c, w, false, 1) == 1.0;
    assert ClassWeight(c, w, false, 2) == 2.0;
    assert ClassWeight(c, w, false, 3) == 2.0;
    assert ClassWeight(c, w, false, 4) == 2.0;
    RateEntry(c, w, false, 0, 2.0, 2.0);
    RateEntry(c, w, false, 1, 2.0, 2.0);
    RateEntry(c, w, false, 2, 2.0, 2.0);
    RateEntry(c, w, false, 3, 1.0, 2.0);
    RateEntry(c, w, false, 4, 0.0, 2.0);
  }

  /** ExampleROC_threshold, on its classes once sorted by score. */
  lemma Threshold()
    ensures RocSpec([false, true, false, true], None)
         == Curves([Num(0.0), Num(0.5), Num(0.5), Num(1.0), Num(1.0)],
                   [Num(0.0), Num(0.0), Num(0.5), Num(0.5), Num(1.0)])
  {
    var c, w := [false, true, false, true], None;
    assert ClassWeight(c, w, true, 1) == 0.0;
    assert ClassWeight(c, w, true, 2) == 1.0;
    assert ClassWeight(c, w, true, 3) == 1.0;
    assert ClassWeight(c, w, true, 4) == 2.0;
    RateEntry(c, w, true, 0, 2.0, 2.0);
    RateEntry(c, w, true, 1, 1.0, 2.0);
    RateEntry(c, w, true, 2, 1.0, 2.0);
    RateEntry(c, w, true, 3, 0.0, 2.0);
    RateEntry(c, w, true, 4, 0.0, 2.0);
    assert ClassWeight(c, w, false, 1) == 1.0;
    assert ClassWeight(c, w, false, 2) == 1.0;
    assert ClassWeight(c, w, false, 3) == 2.0;
    assert ClassWeight(c, w, false, 4) == 2.0;
    RateEntry(c, w, false, 0, 2.0, 2.0);
    RateEntry(c, w, false, 1, 2.0, 2.0);
    RateEntry(c, w, false, 2, 1.0, 2.0);
    RateEntry(c, w, false, 3, 1.0, 2.0);
    RateEntry(c, w, false, 4, 0.0, 2.0);
  }

  /** Case 4: with no positive observation every true positive rate is NaN. */
  lemma TwoNegatives()
    ensures RocSpec([false, false], None)
         == Curves([NaN, NaN, NaN],
                   [Num(0.0), Num(0.5), Num(1.0)])
  {
    var c, w := [false, false], None;
    assert ClassWeight(c, w, true, 1) == 0.0;
    assert ClassWeight(c, w, true, 2) == 0.0;
    RateEntry(c, w, true, 0, 0.0, 0.0);
    RateEntry(c, w, true, 1, 0.0, 0.0);
    RateEntry(c, w, true, 2, 0.0, 0.0);
    assert ClassWeight(c, w, false, 1) == 1.0;
    assert ClassWeight(c, w, false, 2) == 2.0;
    RateEntry(c, w, false, 0, 2.0, 2.0);
    RateEntry(c, w, false, 1, 1.0, 2.0);
    RateEntry(c, w, false, 2, 0.0, 2.0);
  }

  /** Case 5. */
  lemma OneNegative()
    ensures RocSpec([false], None)
         == Curves([NaN, NaN],
                   [Num(0.0), Num(1.0)])
  {
    var c, w := [false], None;
    assert ClassWeight(c, w, true, 1) == 0.0;
    RateEntry(c, w, true, 0, 0.0, 0.0);
    RateEntry(c, w, true, 1, 0.0, 0.0);
    assert ClassWeight(c, w, false, 1) == 1.0;
    RateEntry(c, w, false, 0, 1.0, 1.0);
    RateEntry(c, w, false, 1, 0.0, 1.0);
  }

  /** Case 6: with no negative observation every false positive rate is NaN. */
  lemma OnePositive()
    ensures RocSpec([true], None)
         == Curves([Num(0.0), Num(1.0)],
                   [NaN, NaN])
  {
    var c, w := [true], None;
    assert ClassWeight(c, w, true, 1) == 1.0;
    RateEntry(c, w, true, 0, 1.0, 1.0);
    RateEntry(c, w, true, 1, 0.0, 1.0);
    assert ClassWeight(c, w, false, 1) == 0.0;
    RateEntry(c, w, false, 0, 0.0, 0.0);
    RateEntry(c, w, false, 1, 0.0, 0.0);
  }

  /** Case 7: no observations give empty slices. */
  lemma NoObservations()
    ensures RocSpec([], None) == Curves([], [])
  {
  }

  /** A weight slice of another length than the classes panics. */
  lemma MismatchPanics()
    ensures RocSpec([true, false], Some([1.0])) == Panic("stat: slice length mismatch")
  {
  }
}
