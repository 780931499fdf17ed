/** The batch mobility calculation of the gel simulator (`calculate_mobility`).
    Lengths are integers in base pairs; all arithmetic is exact over `real`. */
module Mobility {
  import opened Wrappers

  /** The small offset added to every length before taking its reciprocal (1e-6). */
  const Epsilon: real := 0.000001

  /** The length of the gel in centimetres. */
  const GelLengthCm: real := 8.0

  /** Python truthiness of the optional control length (`if control_length:`):
      `None` and `0` both mean "no control". */
  predicate ControlGiven(control: Option<int>) {
    control.Some? && control.value != 0
  }

  /** The batch that is normalised together: the samples, then the control when given. */
  function Batch(lengths: seq<int>, control: Option<int>): (b: seq<int>)
    ensures |b| == |lengths| + (if ControlGiven(control) then 1 else 0)
    ensures b[..|lengths|] == lengths
    ensures ControlGiven(control) ==> b[|lengths|] == control.value
  {
    if ControlGiven(control) then lengths + [control.value] else lengths
  }

  /** Raw mobility of one fragment, `1/(L + eps)`; defined for every integer
      because `L + eps` is never zero. */
  function Raw(length: int): (m: real)
    ensures length >= 0 ==> m > 0.0
  {
    assert length as real + Epsilon != 0.0;
    1.0 / (length as real + Epsilon)
  }

  /** Elementwise raw mobility of a batch. */
  function RawAll(b: seq<int>): (r: seq<real>)
    ensures |r| == |b|
    ensures (forall i :: 0 <= i < |b| ==> b[i] >= 0) ==> forall i :: 0 <= i < |b| ==> r[i] > 0.0
  {
    seq(|b|, i requires 0 <= i < |b| => Raw(b[i]))
  }

  /** The least element of a non-empty sequence (`np.min`). */
  function SeqMin(s: seq<real>): (m: real)
    requires |s| > 0
    ensures m in s
    ensures forall i :: 0 <= i < |s| ==> m <= s[i]
  {
    if |s| == 1 then s[0]
    else
      var t := SeqMin(s[1..]);
      if s[0] <= t then s[0] else t
  }

  /** The greatest element of a non-empty sequence (`np.max`). */
  function SeqMax(s: seq<real>): (m: real)
    requires |s| > 0
    ensures m in s
    ensures forall i :: 0 <= i < |s| ==> s[i] <= m
  {
    if |s| == 1 then s[0]
    else
      var t := SeqMax(s[1..]);
      if s[0] >= t then s[0] else t
  }

  /** Min-max normalisation to [0,1]; a constant sequence becomes all 0.5. */
  function Normalize(raw: seq<real>): (n: seq<real>)
    requires |raw| > 0
    ensures |n| == |raw|
    ensures forall i :: 0 <= i < |raw| ==> 0.0 <= n[i] <= 1.0
  {
    seq(|raw|, i requires 0 <= i < |raw| => Scale(raw[i], SeqMin(raw), SeqMax(raw)))
  }

  /** The normalised value of `x` within batch extremes `lo` and `hi`:
      0.5 when the extremes coincide, otherwise `(x - lo)/(hi - lo)`. */
  function Scale(x: real, lo: real, hi: real): (q: real)
    requires lo <= x <= hi
    ensures 0.0 <= q <= 1.0
  {
    if hi == lo then 0.5 else Ratio(x - lo, hi - lo)
  }

  /** `a / d` for `0 <= a <= d`, which lies in [0,1]. */
  function Ratio(a: real, d: real): (q: real)
    requires 0.0 <= a <= d && d > 0.0
    ensures 0.0 <= q <= 1.0
    ensures q == 1.0 <==> a == d
    ensures q == 0.0 <==> a == 0.0
  {
    a / d
  }

  /** Distance label in centimetres of each normalised value, `8*(1 - norm)`:
      a value in [0,1] gets a label in [0,8], labels reverse the order of the
      values, and the ends of the scale swap (1 is 0 cm, 0 is 8 cm). */
  function ToCm(n: seq<real>): (c: seq<real>)
    ensures |c| == |n|
    ensures forall i :: 0 <= i < |n| && 0.0 <= n[i] <= 1.0 ==> 0.0 <= c[i] <= GelLengthCm
    ensures forall i, j :: 0 <= i < |n| && 0 <= j < |n| ==> (n[i] < n[j] <==> c[i] > c[j])
    ensures forall i :: 0 <= i < |n| ==> (c[i] == 0.0 <==> n[i] == 1.0)
    ensures forall i :: 0 <= i < |n| ==> (c[i] == GelLengthCm <==> n[i] == 0.0)
  {
    seq(|n|, i requires 0 <= i < |n| => GelLengthCm * (1.0 - n[i]))
  }

  /** Normalised mobility of every member of a non-empty batch. */
  function BatchNorm(b: seq<int>): (n: seq<real>)
    requires |b| > 0
    ensures |n| == |b|
    ensures forall i :: 0 <= i < |b| ==> 0.0 <= n[i] <= 1.0
  {
    Normalize(RawAll(b))
  }

  /** What `calculate_mobility` returns: the samples' normalised values and cm
      distances, then the control's (both `None` without a control). */
  datatype Mobilities = Mobilities(norm: seq<real>, cm: seq<real>,
                                   controlNorm: Option<real>, controlCm: Option<real>)

  /** `np.min` of an empty array raises. */
  datatype MobilityError = EmptyBatch

  function CalculateMobility(lengths: seq<int>, control: Option<int>): (r: Result<Mobilities, MobilityError>)
    ensures r.Success? <==> |lengths| > 0 || ControlGiven(control)
    ensures r.Success? ==> |r.value.norm| == |lengths| && |r.value.cm| == |lengths|
    ensures r.Success? ==> (r.value.controlNorm.Some? <==> ControlGiven(control))
    ensures r.Success? ==> (r.value.controlCm.Some? <==> ControlGiven(control))
    ensures r.Success? ==> forall i :: 0 <= i < |lengths| ==>
      r.value.cm[i] == GelLengthCm * (1.0 - r.value.norm[i])
    ensures r.Success? && ControlGiven(control) ==>
      r.value.controlCm.value == GelLengthCm * (1.0 - r.value.controlNorm.value)
  {
    var b := Batch(lengths, control);
    if |b| == 0 then Failure(EmptyBatch)
    else
      var n := BatchNorm(b);
      var c := ToCm(n);
      if ControlGiven(control) then
        Success(Mobilities(n[..|lengths|], c[..|lengths|], Some(n[|lengths|]), Some(c[|lengths|])))
      else
        Success(Mobilities(n, c, None, None))
  }
}
