/** The weighted receiver operator characteristic (ROC) of stat/roc.go.

    `classes` holds the true labels of N observations already sorted by
    score; `weights` is either nil (every observation weighs 1) or one weight
    per observation. ROC returns the true and false positive rates at the
    N + 1 cut points of the sorted sequence, or panics when the two slices
    disagree in length. Weights are exact reals; the rates are `Float`s so
    that a class of total weight zero yields the NaN values the code
    produces. */
module Roc {
  import opened Ieee

  datatype Option<T> = None | Some(value: T)

  /** What a call returns: the two rate slices, or the panic it raises. */
  datatype Outcome = Curves(tpr: seq<Float>, fpr: seq<Float>) | Panic(msg: string)

  const LengthMismatch := "stat: slice length mismatch"

  /** The weights are usable with these classes: nil, or one per observation. */
  predicate Matches(classes: seq<bool>, weights: Option<seq<real>>)
  {
    weights.Some? ==> |weights.value| == |classes|
  }

  predicate NonNegative(weights: Option<seq<real>>)
  {
    weights.Some? ==> forall i :: 0 <= i < |weights.value| ==> weights.value[i] >= 0.0
  }

  /** The weight of observation i; a nil slice stands for weight 1. */
  function Weight(weights: Option<seq<real>>, i: nat): real
    requires weights.Some? ==> i < |weights.value|
  {
    if weights.None? then 1.0 else weights.value[i]
  }

  /** Total weight of the observations among the first i with label `positive`. */
  function ClassWeight(classes: seq<bool>, weights: Option<seq<real>>, positive: bool, i: nat): real
    requires Matches(classes, weights) && i <= |classes|
  {
    if i == 0 then 0.0
    else ClassWeight(classes, weights, positive, i - 1)
         + (if classes[i - 1] == positive then Weight(weights, i - 1) else 0.0)
  }

  /** The rate for a cumulative weight `count` of a class of total weight
      `total`, computed as the code does: `1 - count * (1 / total)`. */
  function Rate(count: real, total: real): Float
  {
    OneMinus(Times(count, Recip(total)))
  }

  /** The rates of one class: entry k is the rate for the weight of that class
      among the first N - k observations, so the slice runs from the
      strictest cut point to the loosest. */
  function ClassRates(classes: seq<bool>, weights: Option<seq<real>>, positive: bool): (r: seq<Float>)
    requires Matches(classes, weights)
    ensures |r| == |classes| + 1
  {
    var n := |classes|;
    var total := ClassWeight(classes, weights, positive, n);
    seq(n + 1, k requires 0 <= k <= n => Rate(ClassWeight(classes, weights, positive, n - k), total))
  }

  /** Reference definition of the result of ROC. */
  function RocSpec(classes: seq<bool>, weights: Option<seq<real>>): (r: Outcome)
    ensures r.Panic? <==> !Matches(classes, weights)
    ensures r.Panic? ==> r.msg == LengthMismatch
    ensures r.Curves? && |classes| == 0 ==> r.tpr == [] && r.fpr == []
    ensures r.Curves? && |classes| > 0 ==> |r.tpr| == |classes| + 1 && |r.fpr| == |classes| + 1
  {
    if !Matches(classes, weights) then Panic(LengthMismatch)
    else if |classes| == 0 then Curves([], [])
    else Curves(ClassRates(classes, weights, true), ClassRates(classes, weights, false))
  }

  /** The cumulative weights of one class before normalisation: entry i is
      the weight of that class among the first i observations. */
  function Cumulative(classes: seq<bool>, weights: Option<seq<real>>, positive: bool): (r: seq<Float>)
    requires Matches(classes, weights)
    ensures |r| == |classes| + 1
  {
    seq(|classes| + 1, i requires 0 <= i <= |classes| => Num(ClassWeight(classes, weights, positive, i)))
  }

  predicate AllNumbers(s: seq<Float>)
  {
    forall k :: 0 <= k < |s| ==> s[k].Num?
  }

  /** Every entry x of `s` turned into the rate `1 - x * (1 / total)`. */
  function Normalized(s: seq<Float>, total: real): (r: seq<Float>)
    requires AllNumbers(s)
    ensures |r| == |s|
  {
    seq(|s|, k requires 0 <= k < |s| => Rate(s[k].r, total))
  }

  function Reversed(s: seq<Float>): (r: seq<Float>)
    ensures |r| == |s|
  {
    seq(|s|, k requires 0 <= k < |s| => s[|s| - 1 - k])
  }

  /** The three steps of the code compose to the reference rates. */
  lemma ThreeStepsGiveRates(classes: seq<bool>, weights: Option<seq<real>>, positive: bool)
    requires Matches(classes, weights)
    ensures AllNumbers(Cumulative(classes, weights, positive))
    ensures Reversed(Normalized(Cumulative(classes, weights, positive), ClassWeight(classes, weights, positive, |classes|)))
            == ClassRates(classes, weights, positive)
  {
    var n := |classes|;
    var sums := Cumulative(classes, weights, positive);
    var total := ClassWeight(classes, weights, positive, n);
    var rates := Reversed(Normalized(sums, total));
    forall k | 0 <= k <= n
      ensures rates[k] == ClassRates(classes, weights, positive)[k]
    {
      assert rates[k] == Normalized(sums, total)[n - k] == Rate(sums[n - k].r, total);
    }
  }

  /** ROC as stat/roc.go writes it: two zeroed slices of length N + 1, a
      forward sweep filling them with cumulative weights, an in-place
      conversion to rates, and an in-place reversal that swaps from both ends. Each of the
      three loops is a method below. */
  method ROC(classes: seq<bool>, weights: Option<seq<real>>) returns (r: Outcome)
    ensures r == RocSpec(classes, weights)
  {
    if weights.Some? && |classes| != |weights.value| {
      return Panic(LengthMismatch);
    }
    if |classes| == 0 {
      return Curves([], []);
    }
    var n := |classes|;
    var tpr := new Float[n + 1](_ => Num(0.0));
    var fpr := new Float[n + 1](_ => Num(0.0));
    var nPos, nNeg := Accumulate(classes, weights, tpr, fpr);
    ThreeStepsGiveRates(classes, weights, true);
    ThreeStepsGiveRates(classes, weights, false);
    ToRates(tpr, fpr, nPos, nNeg);
    ReverseTogether(tpr, fpr);
    r := Curves(tpr[..], fpr[..]);
  }

  /** The sweep of stat/roc.go:45-60: entry i + 1 carries entry i forward and
      adds the weight of observation i to the slice of its class; the
      running totals nPos and nNeg are kept beside. */
  method Accumulate(classes: seq<bool>, weights: Option<seq<real>>, tpr: array<Float>, fpr: array<Float>)
    returns (nPos: real, nNeg: real)
    requires Matches(classes, weights)
    requires tpr.Length == |classes| + 1 && fpr.Length == |classes| + 1 && tpr != fpr
    requires tpr[0] == Num(0.0) && fpr[0] == Num(0.0)
    modifies tpr, fpr
    ensures tpr[..] == Cumulative(classes, weights, true)
    ensures fpr[..] == Cumulative(classes, weights, false)
    ensures nPos == ClassWeight(classes, weights, true, |classes|)
    ensures nNeg == ClassWeight(classes, weights, false, |classes|)
  {
    nPos, nNeg := 0.0, 0.0;
    for i := 0 to |classes|
      invariant forall k {:trigger tpr[k]} :: 0 <= k <= i ==> tpr[k] == Num(ClassWeight(classes, weights, true, k))
      invariant forall k {:trigger fpr[k]} :: 0 <= k <= i ==> fpr[k] == Num(ClassWeight(classes, weights, false, k))
      invariant nPos == ClassWeight(classes, weights, true, i)
      invariant nNeg == ClassWeight(classes, weights, false, i)
    {
      tpr[i + 1] := tpr[i];
      fpr[i + 1] := fpr[i];
      var w := 1.0;
      if weights.Some? {
        w := weights.value[i];
      }
      if classes[i] {
        nPos := nPos + w;
        tpr[i + 1] := Num(tpr[i + 1].r + w);
      } else {
        nNeg := nNeg + w;
        fpr[i + 1] := Num(fpr[i + 1].r + w);
      }
    }
  }

  /** The loop of stat/roc.go:62-72: every cumulative weight x becomes
      `1 - x * (1 / total)` of its class. */
  method ToRates(tpr: array<Float>, fpr: array<Float>, nPos: real, nNeg: real)
    requires tpr.Length == fpr.Length && tpr != fpr
    requires AllNumbers(tpr[..]) && AllNumbers(fpr[..])
    modifies tpr, fpr
    ensures tpr[..] == Normalized(old(tpr[..]), nPos)
    ensures fpr[..] == Normalized(old(fpr[..]), nNeg)
  {
    var invNeg := Recip(nNeg);
    var invPos := Recip(nPos);
    for i := 0 to tpr.Length
      invariant forall k {:trigger tpr[k]} :: 0 <= k < i ==> tpr[k] == Rate(old(tpr[k]).r, nPos)
      invariant forall k {:trigger tpr[k]} :: i <= k < tpr.Length ==> tpr[k] == old(tpr[k])
      invariant forall k {:trigger fpr[k]} :: 0 <= k < i ==> fpr[k] == Rate(old(fpr[k]).r, nNeg)
      invariant forall k {:trigger fpr[k]} :: i <= k < fpr.Length ==> fpr[k] == old(fpr[k])
    {
      tpr[i] := OneMinus(Times(tpr[i].r, invPos));
      fpr[i] := OneMinus(Times(fpr[i].r, invNeg));
    }
  }

  /** `s` with its first i and its last i entries exchanged end for end:
      the state of a slice after i rounds of the swap from both ends. */
  function SwappedEnds(s: seq<Float>, i: nat): (r: seq<Float>)
    requires 2 * i <= |s| + 1
    ensures |r| == |s|
  {
    seq(|s|, k requires 0 <= k < |s| => if k < i || |s| - 1 - i < k then s[|s| - 1 - k] else s[k])
  }

  lemma SwapStep(s: seq<Float>, i: nat)
    requires 2 * i + 2 <= |s|
    ensures SwappedEnds(s, i)[i := SwappedEnds(s, i)[|s| - 1 - i]][|s| - 1 - i := SwappedEnds(s, i)[i]]
            == SwappedEnds(s, i + 1)
  {
  }

  lemma SwapDone(s: seq<Float>, i: nat)
    requires |s| <= 2 * i + 1 && 2 * i <= |s| + 1
    ensures SwappedEnds(s, i) == Reversed(s)
  {
  }

  /** The loop of stat/roc.go:73-76: both slices are reversed in place by
      swapping from the two ends towards the middle. */
  method ReverseTogether(tpr: array<Float>, fpr: array<Float>)
    requires tpr.Length == fpr.Length && tpr != fpr
    modifies tpr, fpr
    ensures tpr[..] == Reversed(old(tpr[..]))
    ensures fpr[..] == Reversed(old(fpr[..]))
  {
    ghost var tpr0, fpr0 := tpr[..], fpr[..];
    var i, j := 0, tpr.Length - 1;
    while i < j
      invariant 0 <= i <= j + 2 && i + j == tpr.Length - 1
      invariant tpr[..] == SwappedEnds(tpr0, i) && fpr[..] == SwappedEnds(fpr0, i)
    {
      SwapStep(tpr0, i);
      SwapStep(fpr0, i);
      tpr[i], tpr[j] := tpr[j], tpr[i];
      fpr[i], fpr[j] := fpr[j], fpr[i];
      i, j := i + 1, j - 1;
    }
    SwapDone(tpr0, i);
    SwapDone(fpr0, i);
  }

  /** The rates of class `positive` (true: the TPR) taken from a result. */
  function RatesOf(r: Outcome, positive: bool): seq<Float>
    requires r.Curves?
  {
    if positive then r.tpr else r.fpr
  }

  /** With nonnegative weights the cumulative weight never decreases and
      never exceeds the class total. */
  lemma {:induction false} ClassWeightMonotone(classes: seq<bool>, weights: Option<seq<real>>, positive: bool, a: nat, b: nat)
    requires Matches(classes, weights) && NonNegative(weights)
    requires a <= b <= |classes|
    ensures 0.0 <= ClassWeight(classes, weights, positive, a) <= ClassWeight(classes, weights, positive, b)
  {
    if a < b {
      ClassWeightMonotone(classes, weights, positive, a, b - 1);
    } else if a > 0 {
      ClassWeightMonotone(classes, weights, positive, a - 1, a - 1);
    }
  }

  /** For a class of positive total weight and nonnegative weights, the rates
      form an ROC axis: every entry is a number in [0, 1], the first is 0,
      the last is 1, and they never decrease. */
  lemma RatesFormCurve(classes: seq<bool>, weights: Option<seq<real>>, positive: bool)
    requires Matches(classes, weights) && NonNegative(weights) && |classes| > 0
    requires ClassWeight(classes, weights, positive, |classes|) > 0.0
    ensures var rates := RatesOf(RocSpec(classes, weights), positive);
      && rates[0] == Num(0.0)
      && rates[|classes|] == Num(1.0)
      && (forall k :: 0 <= k < |rates| ==> rates[k].Num? && 0.0 <= rates[k].r <= 1.0)
      && (forall a, b :: 0 <= a <= b < |rates| ==> rates[a].r <= rates[b].r)
  {
    var n := |classes|;
    var total := ClassWeight(classes, weights, positive, n);
    var rates := RatesOf(RocSpec(classes, weights), positive);
    assert rates == ClassRates(classes, weights, positive);
    RateEnds(total);
    assert rates[0] == Rate(total, total);
    assert ClassWeight(classes, weights, positive, 0) == 0.0;
    assert rates[n] == Rate(0.0, total);
    forall k | 0 <= k <= n
      ensures rates[k].Num? && 0.0 <= rates[k].r <= 1.0
    {
      ClassWeightMonotone(classes, weights, positive, n - k, n);
      assert rates[k] == Rate(ClassWeight(classes, weights, positive, n - k), total);
      RateInUnitInterval(ClassWeight(classes, weights, positive, n - k), total);
    }
    forall a, b | 0 <= a <= b <= n
      ensures rates[a].r <= rates[b].r
    {
      ClassWeightMonotone(classes, weights, positive, n - b, n - a);
      assert rates[a] == Rate(ClassWeight(classes, weights, positive, n - a), total);
      assert rates[b] == Rate(ClassWeight(classes, weights, positive, n - b), total);
      RateAntitone(ClassWeight(classes, weights, positive, n - b), ClassWeight(classes, weights, positive, n - a), total);
    }
  }

  lemma RateEnds(total: real)
    requires total > 0.0
    ensures Rate(total, total) == Num(0.0) && Rate(0.0, total) == Num(1.0)
  {
  }

  lemma RateInUnitInterval(x: real, total: real)
    requires 0.0 <= x <= total && total > 0.0
    ensures Rate(x, total).Num? && 0.0 <= Rate(x, total).r <= 1.0
  {
    assert Rate(x, total) == Num(1.0 - x * (1.0 / total));
    assert x * (1.0 / total) <= total * (1.0 / total);
  }

  lemma RateAntitone(x: real, y: real, total: real)
    requires x <= y && total > 0.0
    ensures Rate(x, total).Num? && Rate(y, total).Num? && Rate(y, total).r <= Rate(x, total).r
  {
    assert x * (1.0 / total) <= y * (1.0 / total);
  }

  /** With nonnegative weights, a class of total weight zero (in particular
      a class with no observations at all) has NaN at every cut point. */
  lemma EmptyClassIsNaN(classes: seq<bool>, weights: Option<seq<real>>, positive: bool)
    requires Matches(classes, weights) && NonNegative(weights) && |classes| > 0
    requires ClassWeight(classes, weights, positive, |classes|) == 0.0
    ensures forall k :: 0 <= k < |classes| + 1 ==> RatesOf(RocSpec(classes, weights), positive)[k] == NaN
  {
    var n := |classes|;
    var rates := RatesOf(RocSpec(classes, weights), positive);
    assert rates == ClassRates(classes, weights, positive);
    forall k | 0 <= k <= n
      ensures rates[k] == NaN
    {
      ClassWeightMonotone(classes, weights, positive, n - k, n);
      assert rates[k] == Rate(0.0, 0.0);
    }
  }

  /** A nil weight slice gives exactly the result of all-ones weights. */
  lemma NilWeightsAreOnes(classes: seq<bool>)
    ensures RocSpec(classes, None) == RocSpec(classes, Some(seq(|classes|, _ => 1.0)))
  {
    var ones := Some(seq(|classes|, _ => 1.0));
    forall positive: bool, i | 0 <= i <= |classes|
      ensures ClassWeight(classes, None, positive, i) == ClassWeight(classes, ones, positive, i)
    {
      OnesAgree(classes, positive, i);
    }
    if |classes| > 0 {
      assert ClassRates(classes, None, true) == ClassRates(classes, ones, true);
      assert ClassRates(classes, None, false) == ClassRates(classes, ones, false);
    }
  }

  lemma {:induction false} OnesAgree(classes: seq<bool>, positive: bool, i: nat)
    requires i <= |classes|
    ensures ClassWeight(classes, None, positive, i) == ClassWeight(classes, Some(seq(|classes|, _ => 1.0)), positive, i)
  {
    if i > 0 {
      OnesAgree(classes, positive, i - 1);
    }
  }

  function Scaled(weights: seq<real>, s: real): (r: seq<real>)
    ensures |r| == |weights|
  {
    seq(|weights|, i requires 0 <= i < |weights| => s * weights[i])
  }

  /** Multiplying every weight by the same positive constant does not change
      the result. */
  lemma ScaleInvariant(classes: seq<bool>, weights: seq<real>, s: real)
    requires |weights| == |classes| && s > 0.0
    ensures RocSpec(classes, Some(Scaled(weights, s))) == RocSpec(classes, Some(weights))
  {
    if |classes| > 0 {
      ScaledRates(classes, weights, s, true);
      ScaledRates(classes, weights, s, false);
    }
  }

  lemma ScaledRates(classes: seq<bool>, weights: seq<real>, s: real, positive: bool)
    requires |weights| == |classes| && s > 0.0
    ensures ClassRates(classes, Some(Scaled(weights, s)), positive) == ClassRates(classes, Some(weights), positive)
  {
    forall k | 0 <= k <= |classes|
      ensures ClassRates(classes, Some(Scaled(weights, s)), positive)[k] == ClassRates(classes, Some(weights), positive)[k]
    {
      ScaledRateEntry(classes, weights, s, positive, k);
    }
  }

  lemma ScaledRateEntry(classes: seq<bool>, weights: seq<real>, s: real, positive: bool, k: nat)
    requires |weights| == |classes| && s > 0.0 && k <= |classes|
    ensures ClassRates(classes, Some(Scaled(weights, s)), positive)[k] == ClassRates(classes, Some(weights), positive)[k]
  {
    var w, sw := Some(weights), Some(Scaled(weights, s));
    var n := |classes|;
    RateAt(classes, w, positive, k);
    RateAt(classes, sw, positive, k);
    ScaledWeight(classes, weights, s, positive, n);
    ScaledCountRate(classes, weights, s, positive, n - k, ClassWeight(classes, w, positive, n), ClassWeight(classes, sw, positive, n));
  }

  /** The rate of a scaled cumulative weight against a total scaled by the
      same factor. */
  lemma ScaledCountRate(classes: seq<bool>, weights: seq<real>, s: real, positive: bool, i: nat, total: real, stotal: real)
    requires |weights| == |classes| && s > 0.0 && i <= |classes| && stotal == s * total
    ensures Rate(ClassWeight(classes, Some(Scaled(weights, s)), positive, i), stotal)
         == Rate(ClassWeight(classes, Some(weights), positive, i), total)
  {
    ScaledWeight(classes, weights, s, positive, i);
    RateScale(ClassWeight(classes, Some(weights), positive, i), total, s,
              ClassWeight(classes, Some(Scaled(weights, s)), positive, i), stotal);
  }

  /** Entry k of a class's rates. */
  lemma RateAt(classes: seq<bool>, weights: Option<seq<real>>, positive: bool, k: nat)
    requires Matches(classes, weights) && k <= |classes|
    ensures ClassRates(classes, weights, positive)[k]
         == Rate(ClassWeight(classes, weights, positive, |classes| - k), ClassWeight(classes, weights, positive, |classes|))
  {
  }

  lemma {:induction false} ScaledWeight(classes: seq<bool>, weights: seq<real>, s: real, positive: bool, i: nat)
    requires |weights| == |classes| && i <= |classes|
    ensures ClassWeight(classes, Some(Scaled(weights, s)), positive, i) == s * ClassWeight(classes, Some(weights), positive, i)
  {
    if i > 0 {
      ScaledWeight(classes, weights, s, positive, i - 1);
    }
  }

  lemma RateScale(x: real, total: real, s: real, sx: real, stotal: real)
    requires s > 0.0 && sx == s * x && stotal == s * total
    ensures Rate(sx, stotal) == Rate(x, total)
  {
    if total != 0.0 {
      assert sx * (1.0 / stotal) == x * (1.0 / total);
    }
  }
}
