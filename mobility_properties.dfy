/** Properties of the batch mobility calculation: order, bounds, the equal-input
    case, the extremes of the batch and the split of the control off the end. */
module MobilityProperties {
  import opened Wrappers
  import opened Mobility

  /** Every length of the batch is the same. */
  ghost predicate AllSame(b: seq<int>) {
    forall i, j :: 0 <= i < |b| && 0 <= j < |b| ==> b[i] == b[j]
  }

  /** `b[k]` is a shortest fragment of the batch. */
  ghost predicate Shortest(b: seq<int>, k: int)
    requires 0 <= k < |b|
  {
    forall j :: 0 <= j < |b| ==> b[k] <= b[j]
  }

  /** `b[k]` is a longest fragment of the batch. */
  ghost predicate Longest(b: seq<int>, k: int)
    requires 0 <= k < |b|
  {
    forall j :: 0 <= j < |b| ==> b[j] <= b[k]
  }

  ghost predicate NonNegative(b: seq<int>) {
    forall i :: 0 <= i < |b| ==> b[i] >= 0
  }

  // ---------------------------------------------------------------------------
  // Raw mobility

  /** `1/(L + eps)` is strictly decreasing on non-negative lengths. */
  lemma RawStrictlyDecreasing(a: int, b: int)
    requires 0 <= a < b
    ensures Raw(a) > Raw(b)
  {
    var x, y := a as real + Epsilon, b as real + Epsilon;
    assert 0.0 < x < y;
    ReciprocalDecreasing(x, y);
  }

  lemma ReciprocalDecreasing(x: real, y: real)
    requires 0.0 < x < y
    ensures 1.0 / x > 1.0 / y
  {
    var p, q := 1.0 / x, 1.0 / y;
    assert p * x == 1.0 && q * y == 1.0;
    calc {
      q;
    ==
      q * (p * x);
    <  { assert p * q > 0.0; assert (p * q) * x < (p * q) * y; }
      q * (p * y);
    ==
      p * (q * y);
    ==
      p;
    }
  }

  /** On non-negative lengths, raw mobility reverses the order of lengths. */
  lemma RawOrder(a: int, b: int)
    requires a >= 0 && b >= 0
    ensures a < b <==> Raw(a) > Raw(b)
    ensures a == b <==> Raw(a) == Raw(b)
  {
    if a < b { RawStrictlyDecreasing(a, b); }
    if b < a { RawStrictlyDecreasing(b, a); }
  }

  /** Different lengths have different raw mobilities (any integers). */
  lemma RawInjective(a: int, b: int)
    ensures Raw(a) == Raw(b) <==> a == b
  {
    if Raw(a) == Raw(b) {
      var x, y := a as real + Epsilon, b as real + Epsilon;
      assert x != 0.0 && y != 0.0;
      assert Raw(a) * x == 1.0 && Raw(b) * y == 1.0;
      assert Raw(a) * x == Raw(a) * y;
      assert Raw(a) != 0.0;
    }
  }

  // ---------------------------------------------------------------------------
  // Normalisation over a whole batch

  /** The raw extremes coincide exactly when all lengths are the same. */
  lemma ExtremesEqualIffAllSame(b: seq<int>)
    requires |b| > 0
    ensures SeqMax(RawAll(b)) == SeqMin(RawAll(b)) <==> AllSame(b)
  {
    var raw := RawAll(b);
    if AllSame(b) {
      var p :| 0 <= p < |raw| && raw[p] == SeqMin(raw);
      var q :| 0 <= q < |raw| && raw[q] == SeqMax(raw);
      assert b[p] == b[q];
    } else {
      var i, j :| 0 <= i < |b| && 0 <= j < |b| && b[i] != b[j];
      RawInjective(b[i], b[j]);
      assert raw[i] != raw[j];
    }
  }

  /** Every normalised value is 0.5 exactly when all lengths (control included)
      are the same. */
  lemma BatchNormHalfIffAllSame(b: seq<int>)
    requires |b| > 0
    ensures AllSame(b) <==> forall i :: 0 <= i < |b| ==> BatchNorm(b)[i] == 0.5
  {
    var raw := RawAll(b);
    var lo, hi := SeqMin(raw), SeqMax(raw);
    ExtremesEqualIffAllSame(b);
    if !AllSame(b) {
      var q :| 0 <= q < |raw| && raw[q] == hi;
      ScaleExtremes(raw[q], lo, hi);
      assert BatchNorm(b)[q] == Scale(raw[q], lo, hi) == 1.0;
    }
  }

  /** `raw[k]` is the raw maximum exactly when `b[k]` is a shortest length. */
  lemma RawMaxIffShortest(b: seq<int>, k: int)
    requires |b| > 0 && NonNegative(b) && 0 <= k < |b|
    ensures RawAll(b)[k] == SeqMax(RawAll(b)) <==> Shortest(b, k)
  {
    var raw := RawAll(b);
    var hi := SeqMax(raw);
    if raw[k] == hi {
      forall j | 0 <= j < |b| ensures b[k] <= b[j] {
        assert raw[j] == Raw(b[j]) && raw[k] == Raw(b[k]);
        RawOrder(b[j], b[k]);
      }
    }
    if Shortest(b, k) {
      var q :| 0 <= q < |raw| && raw[q] == hi;
      assert raw[q] == Raw(b[q]) && raw[k] == Raw(b[k]);
      RawOrder(b[k], b[q]);
    }
  }

  /** `raw[k]` is the raw minimum exactly when `b[k]` is a longest length. */
  lemma RawMinIffLongest(b: seq<int>, k: int)
    requires |b| > 0 && NonNegative(b) && 0 <= k < |b|
    ensures RawAll(b)[k] == SeqMin(RawAll(b)) <==> Longest(b, k)
  {
    var raw := RawAll(b);
    var lo := SeqMin(raw);
    if raw[k] == lo {
      forall j | 0 <= j < |b| ensures b[j] <= b[k] {
        assert raw[j] == Raw(b[j]) && raw[k] == Raw(b[k]);
        RawOrder(b[j], b[k]);
      }
    }
    if Longest(b, k) {
      var q :| 0 <= q < |raw| && raw[q] == lo;
      assert raw[q] == Raw(b[q]) && raw[k] == Raw(b[k]);
      RawOrder(b[k], b[q]);
    }
  }

  /** Unless all lengths are equal, a value is 1 exactly for a shortest length and
      0 exactly for a longest one. */
  lemma BatchNormExtremes(b: seq<int>, k: int)
    requires |b| > 0 && NonNegative(b) && !AllSame(b) && 0 <= k < |b|
    ensures BatchNorm(b)[k] == 1.0 <==> Shortest(b, k)
    ensures BatchNorm(b)[k] == 0.0 <==> Longest(b, k)
  {
    var raw := RawAll(b);
    var lo, hi := SeqMin(raw), SeqMax(raw);
    ExtremesEqualIffAllSame(b);
    assert BatchNorm(b)[k] == Scale(raw[k], lo, hi);
    ScaleExtremes(raw[k], lo, hi);
    RawMaxIffShortest(b, k);
    RawMinIffLongest(b, k);
  }

  /** Dividing by a positive number keeps the order. */
  lemma DivideKeepsOrder(a: real, c: real, d: real)
    requires d > 0.0
    ensures a < c <==> a / d < c / d
  {
    assert (a / d) * d == a && (c / d) * d == c;
    if a < c {
      assert (c - a) / d > 0.0;
      assert c / d - a / d == (c - a) / d;
    }
    if a / d < c / d {
      assert (c / d - a / d) * d > 0.0;
    }
  }

  /** Within distinct extremes, scaling keeps the order of values and their
      equalities. */
  lemma ScaleOrder(x: real, y: real, lo: real, hi: real)
    requires lo <= x <= hi && lo <= y <= hi && lo < hi
    ensures x < y <==> Scale(x, lo, hi) < Scale(y, lo, hi)
    ensures x == y <==> Scale(x, lo, hi) == Scale(y, lo, hi)
  {
    DivideKeepsOrder(x - lo, y - lo, hi - lo);
    DivideKeepsOrder(y - lo, x - lo, hi - lo);
  }

  /** Within distinct extremes, the top value scales to exactly 1 and the bottom
      one to exactly 0, and no other value does. */
  lemma ScaleExtremes(x: real, lo: real, hi: real)
    requires lo <= x <= hi && lo < hi
    ensures Scale(x, lo, hi) == 1.0 <==> x == hi
    ensures Scale(x, lo, hi) == 0.0 <==> x == lo
  {
  }

  /** Normalised mobility is strictly decreasing in length, and equal lengths
      get equal values. */
  lemma BatchNormOrder(b: seq<int>, i: int, j: int)
    requires |b| > 0 && NonNegative(b) && 0 <= i < |b| && 0 <= j < |b|
    ensures b[i] < b[j] <==> BatchNorm(b)[i] > BatchNorm(b)[j]
    ensures b[i] == b[j] <==> BatchNorm(b)[i] == BatchNorm(b)[j]
  {
    var raw := RawAll(b);
    RawOrder(b[i], b[j]);
    ExtremesEqualIffAllSame(b);
    var lo, hi := SeqMin(raw), SeqMax(raw);
    if hi == lo {
      assert b[i] == b[j];
    } else {
      assert BatchNorm(b)[i] == Scale(raw[i], lo, hi);
      assert BatchNorm(b)[j] == Scale(raw[j], lo, hi);
      ScaleOrder(raw[i], raw[j], lo, hi);
      ScaleOrder(raw[j], raw[i], lo, hi);
    }
  }

  // ---------------------------------------------------------------------------
  // An independent reference: normalised mobility from the batch's shortest and
  // longest lengths instead of the extremes of the raw values

  /** The mobility of a fragment of `length` in a batch whose shortest and longest
      fragments are `shortest` and `longest`. */
  function ReferenceNorm(length: int, shortest: int, longest: int): real
    requires 0 <= shortest <= length <= longest
  {
    if shortest == longest then 0.5
    else (Raw(length) - Raw(longest)) / (Raw(shortest) - Raw(longest))
  }

  /** The reference value is the raw value scaled between the raw mobilities of
      the longest and the shortest length. */
  lemma ReferenceIsScaledRaw(length: int, shortest: int, longest: int)
    requires 0 <= shortest <= length <= longest
    ensures Raw(longest) <= Raw(length) <= Raw(shortest)
    ensures ReferenceNorm(length, shortest, longest) == Scale(Raw(length), Raw(longest), Raw(shortest))
  {
    RawOrder(shortest, length);
    RawOrder(length, longest);
    RawOrder(shortest, longest);
  }

  /** `max_mob` is the raw mobility of any shortest length of the batch. */
  lemma RawMaxAt(b: seq<int>, p: int)
    requires |b| > 0 && NonNegative(b) && 0 <= p < |b| && Shortest(b, p)
    ensures SeqMax(RawAll(b)) == Raw(b[p])
  {
    RawMaxIffShortest(b, p);
  }

  /** `min_mob` is the raw mobility of any longest length of the batch. */
  lemma RawMinAt(b: seq<int>, q: int)
    requires |b| > 0 && NonNegative(b) && 0 <= q < |b| && Longest(b, q)
    ensures SeqMin(RawAll(b)) == Raw(b[q])
  {
    RawMinIffLongest(b, q);
  }

  /** A batch of non-negative lengths has a longest member. */
  lemma LongestIndex(b: seq<int>) returns (q: int)
    requires |b| > 0 && NonNegative(b)
    ensures 0 <= q < |b| && Longest(b, q)
  {
    q :| 0 <= q < |b| && RawAll(b)[q] == SeqMin(RawAll(b));
    RawMinIffLongest(b, q);
  }

  /** The normalised mobility of every member of a batch of non-negative lengths
      agrees with the reference definition, for any shortest member `s` and any
      longest member `l`. */
  lemma BatchNormMatchesReference(b: seq<int>, k: int, s: int, l: int)
    requires |b| > 0 && NonNegative(b) && 0 <= k < |b|
    requires 0 <= s < |b| && Shortest(b, s) && 0 <= l < |b| && Longest(b, l)
    ensures BatchNorm(b)[k] == ReferenceNorm(b[k], b[s], b[l])
  {
    var raw := RawAll(b);
    RawMaxAt(b, s);
    RawMinAt(b, l);
    assert BatchNorm(b)[k] == Scale(raw[k], Raw(b[l]), Raw(b[s]));
    assert raw[k] == Raw(b[k]);
    ReferenceIsScaledRaw(b[k], b[s], b[l]);
  }

  // ---------------------------------------------------------------------------
  // calculate_mobility: samples plus the control split off the end

  /** The samples' values followed by the control's, when a control is given. */
  function Joined(vs: seq<real>, control: Option<real>): seq<real> {
    if control.Some? then vs + [control.value] else vs
  }

  lemma SplitLast(v: seq<real>, m: nat)
    requires |v| == m + 1
    ensures v[..m] + [v[m]] == v
  {
  }

  /** The sample results and the control result are the batch's results in batch
      order: the control is exactly the element split off the end, and every cm
      distance is `8*(1 - norm)` of the same fragment. */
  lemma SplitControl(lengths: seq<int>, control: Option<int>)
    requires CalculateMobility(lengths, control).Success?
    ensures var r := CalculateMobility(lengths, control).value;
      && Joined(r.norm, r.controlNorm) == BatchNorm(Batch(lengths, control))
      && Joined(r.cm, r.controlCm) == ToCm(BatchNorm(Batch(lengths, control)))
  {
    var b := Batch(lengths, control);
    var n := BatchNorm(b);
    var c := ToCm(n);
    var r := CalculateMobility(lengths, control).value;
    if ControlGiven(control) {
      assert r == Mobilities(n[..|lengths|], c[..|lengths|], Some(n[|lengths|]), Some(c[|lengths|]));
      SplitLast(n, |lengths|);
      SplitLast(c, |lengths|);
    } else {
      assert r == Mobilities(n, c, None, None);
    }
  }

  /** Batch index of sample `i` is `i`; the control's is `|lengths|`. */
  lemma SampleAt(lengths: seq<int>, control: Option<int>, i: int)
    requires CalculateMobility(lengths, control).Success?
    requires 0 <= i < |lengths|
    ensures var r := CalculateMobility(lengths, control).value;
      && Batch(lengths, control)[i] == lengths[i]
      && r.norm[i] == BatchNorm(Batch(lengths, control))[i]
      && r.cm[i] == ToCm(BatchNorm(Batch(lengths, control)))[i]
  {
    var r := CalculateMobility(lengths, control).value;
    SplitControl(lengths, control);
    assert Joined(r.norm, r.controlNorm)[i] == r.norm[i];
    assert Joined(r.cm, r.controlCm)[i] == r.cm[i];
  }

  lemma ControlAt(lengths: seq<int>, control: Option<int>)
    requires ControlGiven(control)
    ensures var r := CalculateMobility(lengths, control).value;
      && r.controlNorm == Some(BatchNorm(Batch(lengths, control))[|lengths|])
      && r.controlCm == Some(ToCm(BatchNorm(Batch(lengths, control)))[|lengths|])
  {
  }

  /** Every normalised value lies in [0,1] and every cm distance in [0,8], the
      control's included. */
  lemma MobilityBounds(lengths: seq<int>, control: Option<int>)
    requires CalculateMobility(lengths, control).Success?
    ensures var r := CalculateMobility(lengths, control).value;
      && (forall i :: 0 <= i < |lengths| ==> 0.0 <= r.norm[i] <= 1.0 && 0.0 <= r.cm[i] <= GelLengthCm)
      && (r.controlNorm.Some? ==> 0.0 <= r.controlNorm.value <= 1.0)
      && (r.controlCm.Some? ==> 0.0 <= r.controlCm.value <= GelLengthCm)
  {
    var b := Batch(lengths, control);
    var n := BatchNorm(b);
    forall i | 0 <= i < |lengths|
      ensures 0.0 <= CalculateMobility(lengths, control).value.cm[i] <= GelLengthCm
    {
      SampleAt(lengths, control, i);
    }
  }

  /** Every result (control included) is 0.5 exactly when every length in the
      batch (control included) is the same. */
  lemma MobilityAllEqual(lengths: seq<int>, control: Option<int>)
    requires CalculateMobility(lengths, control).Success?
    ensures var r := CalculateMobility(lengths, control).value;
      AllSame(Batch(lengths, control)) <==>
        (forall i :: 0 <= i < |lengths| ==> r.norm[i] == 0.5)
        && (r.controlNorm.Some? ==> r.controlNorm.value == 0.5)
  {
    var r := CalculateMobility(lengths, control).value;
    var b := Batch(lengths, control);
    BatchNormHalfIffAllSame(b);
    SplitControl(lengths, control);
    var all := Joined(r.norm, r.controlNorm);
    assert forall i :: 0 <= i < |lengths| ==> all[i] == r.norm[i];
    assert r.controlNorm.Some? ==> all[|lengths|] == r.controlNorm.value;
  }

  /** The lengths of the samples and of the control are not negative. */
  ghost predicate NonNegativeInput(lengths: seq<int>, control: Option<int>) {
    NonNegative(lengths) && (control.Some? ==> control.value >= 0)
  }

  lemma BatchNonNegative(lengths: seq<int>, control: Option<int>)
    requires NonNegativeInput(lengths, control)
    ensures NonNegative(Batch(lengths, control))
  {
  }

  /** Between samples, a shorter fragment has a strictly larger normalised value
      and a strictly smaller cm distance, and equal lengths get equal results. */
  lemma MobilityOrder(lengths: seq<int>, control: Option<int>, i: int, j: int)
    requires NonNegativeInput(lengths, control)
    requires 0 <= i < |lengths| && 0 <= j < |lengths|
    ensures var r := CalculateMobility(lengths, control).value;
      && (lengths[i] < lengths[j] <==> r.norm[i] > r.norm[j])
      && (lengths[i] < lengths[j] <==> r.cm[i] < r.cm[j])
      && (lengths[i] == lengths[j] <==> r.norm[i] == r.norm[j])
      && (lengths[i] == lengths[j] <==> r.cm[i] == r.cm[j])
  {
    var b := Batch(lengths, control);
    BatchNonNegative(lengths, control);
    BatchNormOrder(b, i, j);
    SampleAt(lengths, control, i);
    SampleAt(lengths, control, j);
  }

  /** The control is ordered against every sample in the same way. */
  lemma MobilityControlOrder(lengths: seq<int>, control: Option<int>, i: int)
    requires NonNegativeInput(lengths, control) && ControlGiven(control)
    requires 0 <= i < |lengths|
    ensures var r := CalculateMobility(lengths, control).value;
      && (lengths[i] < control.value <==> r.norm[i] > r.controlNorm.value)
      && (lengths[i] < control.value <==> r.cm[i] < r.controlCm.value)
      && (lengths[i] == control.value <==> r.norm[i] == r.controlNorm.value)
      && (lengths[i] == control.value <==> r.cm[i] == r.controlCm.value)
  {
    var b := Batch(lengths, control);
    BatchNonNegative(lengths, control);
    BatchNormOrder(b, i, |lengths|);
    SampleAt(lengths, control, i);
    ControlAt(lengths, control);
  }

  /** Unless every length in the batch is the same, a sample's value is exactly 1
      when it is a shortest length of the batch (control included) and exactly 0
      when it is a longest one. */
  lemma MobilityExtremes(lengths: seq<int>, control: Option<int>, k: int)
    requires NonNegativeInput(lengths, control)
    requires 0 <= k < |lengths| && !AllSame(Batch(lengths, control))
    ensures var r := CalculateMobility(lengths, control).value;
      && (r.norm[k] == 1.0 <==> Shortest(Batch(lengths, control), k))
      && (r.norm[k] == 0.0 <==> Longest(Batch(lengths, control), k))
      && (r.cm[k] == 0.0 <==> Shortest(Batch(lengths, control), k))
      && (r.cm[k] == GelLengthCm <==> Longest(Batch(lengths, control), k))
  {
    var b := Batch(lengths, control);
    BatchNonNegative(lengths, control);
    BatchNormExtremes(b, k);
    SampleAt(lengths, control, k);
  }

  /** The same for the control, the last member of the batch. */
  lemma MobilityControlExtremes(lengths: seq<int>, control: Option<int>)
    requires NonNegativeInput(lengths, control) && ControlGiven(control)
    requires !AllSame(Batch(lengths, control))
    ensures var r := CalculateMobility(lengths, control).value;
      && (r.controlNorm == Some(1.0) <==> Shortest(Batch(lengths, control), |lengths|))
      && (r.controlNorm == Some(0.0) <==> Longest(Batch(lengths, control), |lengths|))
  {
    var b := Batch(lengths, control);
    BatchNonNegative(lengths, control);
    BatchNormExtremes(b, |lengths|);
    ControlAt(lengths, control);
  }

  /** A control of `0` is falsy and is treated as no control at all. */
  lemma ZeroControlIsNoControl(lengths: seq<int>)
    ensures CalculateMobility(lengths, Some(0)) == CalculateMobility(lengths, None)
  {
  }

  /** The control takes part in the min/max: a control longer than every sample
      becomes the 0 end of the scale, lifts every sample above 0, and changes the
      value of at least one sample compared with the same samples alone. */
  lemma LongControlShiftsSamples(lengths: seq<int>, c: int)
    requires |lengths| > 0 && NonNegative(lengths)
    requires forall i :: 0 <= i < |lengths| ==> lengths[i] < c
    ensures var with := CalculateMobility(lengths, Some(c)).value;
      && with.controlNorm == Some(0.0)
      && (forall k :: 0 <= k < |lengths| ==> with.norm[k] > 0.0)
      && exists k :: 0 <= k < |lengths|
           && with.norm[k] != CalculateMobility(lengths, None).value.norm[k]
  {
    assert ControlGiven(Some(c)) by { assert lengths[0] < c; }
    var b := Batch(lengths, Some(c));
    assert Longest(b, |lengths|);
    assert !AllSame(b) by { assert b[0] != b[|lengths|]; }
    MobilityControlExtremes(lengths, Some(c));
    forall k | 0 <= k < |lengths| ensures CalculateMobility(lengths, Some(c)).value.norm[k] > 0.0 {
      LongControlLiftsSample(lengths, c, k);
    }
    var with := CalculateMobility(lengths, Some(c)).value;
    var alone := CalculateMobility(lengths, None).value;
    if AllSame(lengths) {
      AllSameSamplesChange(lengths, c);
      assert with.norm[0] != alone.norm[0];
    } else {
      var q := LongestIndex(lengths);
      LongestSampleChanges(lengths, c, q);
      assert with.norm[q] != alone.norm[q];
    }
  }

  /** With a control longer than every sample, each sample is above 0. */
  lemma LongControlLiftsSample(lengths: seq<int>, c: int, k: int)
    requires NonNegative(lengths) && 0 <= k < |lengths|
    requires forall i :: 0 <= i < |lengths| ==> lengths[i] < c
    ensures CalculateMobility(lengths, Some(c)).value.norm[k] > 0.0
  {
    var b := Batch(lengths, Some(c));
    assert !Longest(b, k) by { assert b[k] < b[|lengths|]; }
    assert !AllSame(b) by { assert b[k] != b[|lengths|]; }
    MobilityExtremes(lengths, Some(c), k);
    MobilityBounds(lengths, Some(c));
  }

  /** Equal samples are all at 0.5 alone, and all move to 1 once a longer control
      joins the batch. */
  lemma AllSameSamplesChange(lengths: seq<int>, c: int)
    requires |lengths| > 0 && NonNegative(lengths) && AllSame(lengths)
    requires forall i :: 0 <= i < |lengths| ==> lengths[i] < c
    ensures forall k :: 0 <= k < |lengths| ==>
      && CalculateMobility(lengths, Some(c)).value.norm[k] == 1.0
      && CalculateMobility(lengths, None).value.norm[k] == 0.5
  {
    assert ControlGiven(Some(c)) by { assert lengths[0] < c; }
    var b := Batch(lengths, Some(c));
    assert Batch(lengths, None) == lengths;
    MobilityAllEqual(lengths, None);
    assert !AllSame(b) by { assert b[0] != b[|lengths|]; }
    forall k | 0 <= k < |lengths| ensures CalculateMobility(lengths, Some(c)).value.norm[k] == 1.0 {
      assert Shortest(b, k);
      MobilityExtremes(lengths, Some(c), k);
    }
  }

  /** The longest of unequal samples is at 0 alone and above 0 with a longer
      control. */
  lemma LongestSampleChanges(lengths: seq<int>, c: int, q: int)
    requires NonNegative(lengths) && !AllSame(lengths)
    requires 0 <= q < |lengths| && Longest(lengths, q)
    requires forall i :: 0 <= i < |lengths| ==> lengths[i] < c
    ensures CalculateMobility(lengths, None).value.norm[q] == 0.0
    ensures CalculateMobility(lengths, Some(c)).value.norm[q] > 0.0
  {
    assert Batch(lengths, None) == lengths;
    MobilityExtremes(lengths, None, q);
    LongControlLiftsSample(lengths, c, q);
  }

  /** The batch 100, 250, 500, 750 bp without a control: strictly decreasing
      values, from exactly 1 for 100 bp to exactly 0 for 750 bp. */
  lemma FourFragmentExample()
    ensures var r := CalculateMobility([100, 250, 500, 750], None).value;
      && r.norm[0] == 1.0 && r.norm[3] == 0.0
      && r.norm[0] > r.norm[1] > r.norm[2] > r.norm[3]
      && r.cm[0] == 0.0 && r.cm[3] == GelLengthCm
  {
    var lengths := [100, 250, 500, 750];
    var b := Batch(lengths, None);
    assert b == lengths;
    assert !AllSame(b) by { assert b[0] != b[3]; }
    assert Shortest(b, 0);
    assert Longest(b, 3);
    MobilityExtremes(lengths, None, 0);
    MobilityExtremes(lengths, None, 3);
    MobilityOrder(lengths, None, 0, 1);
    MobilityOrder(lengths, None, 1, 2);
    MobilityOrder(lengths, None, 2, 3);
  }
}
