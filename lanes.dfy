/** The lane layout of `visualize_gel`: how many lanes there are, where each lane
    sits on the x-axis, and which fragment each lane shows. Drawing is not modelled. */
module Lanes {
  import opened Wrappers

  /** Centre of lane 0, and the span over which the lane centres are spread
      (axis units). */
  const StartX: real := 0.05
  const LaneArea: real := 0.9

  /** Lane count: one per sample, plus one when a control is present. */
  function TotalLanes(numSamples: nat, hasControl: bool): (n: nat)
    ensures numSamples <= n
    ensures n == numSamples <==> !hasControl
    ensures hasControl ==> n == numSamples + 1
    ensures n > 0 <==> numSamples > 0 || hasControl
  {
    numSamples + (if hasControl then 1 else 0)
  }

  /** What a lane shows: the control, or the sample at an index. */
  datatype LaneContent = ControlLane | SampleLane(index: nat)

  /** Lane `i` shows the control when it is lane 0 of a gel with a control;
      otherwise it shows sample `i - 1` with a control and sample `i` without. */
  function ContentOf(i: nat, numSamples: nat, hasControl: bool): (c: LaneContent)
    requires i < TotalLanes(numSamples, hasControl)
    ensures c == ControlLane <==> hasControl && i == 0
    ensures c.SampleLane? ==> c.index < numSamples
  {
    if hasControl && i == 0 then ControlLane
    else SampleLane(if hasControl then i - 1 else i)
  }

  /** The lane that shows sample `k`. */
  function LaneOf(k: nat, hasControl: bool): nat {
    if hasControl then k + 1 else k
  }

  /** Every sample is shown in exactly one lane, in sample order, and every lane
      other than the control lane shows a sample. */
  lemma SampleLanesBijective(numSamples: nat, hasControl: bool)
    ensures forall k: nat :: k < numSamples ==>
      LaneOf(k, hasControl) < TotalLanes(numSamples, hasControl)
      && ContentOf(LaneOf(k, hasControl), numSamples, hasControl) == SampleLane(k)
    ensures forall i: nat :: i < TotalLanes(numSamples, hasControl) ==>
      ContentOf(i, numSamples, hasControl).SampleLane? ==>
        LaneOf(ContentOf(i, numSamples, hasControl).index, hasControl) == i
    ensures forall i: nat, j: nat :: i < j < TotalLanes(numSamples, hasControl) ==>
      ContentOf(i, numSamples, hasControl).SampleLane? ==>
        ContentOf(i, numSamples, hasControl).index < ContentOf(j, numSamples, hasControl).index
  {
  }

  /** `0.9 / total_lanes` raises when there are no lanes. */
  datatype LayoutError = NoLanes

  /** The x-position of each lane, `0.05 + i * (0.9 / total)`. */
  function LanePositions(total: nat): (r: Result<seq<real>, LayoutError>)
    ensures r.Success? <==> total > 0
    ensures r.Success? ==> |r.value| == total
    ensures r.Success? ==> forall i, j :: 0 <= i < j < total ==> r.value[i] < r.value[j]
    ensures r.Success? ==> forall i :: 0 <= i < total ==> StartX <= r.value[i] < StartX + LaneArea
  {
    if total == 0 then Failure(NoLanes)
    else
      PositionsIncreasing(total);
      Success(seq(total, i requires 0 <= i < total => LanePosition(i, total)))
  }

  /** The x-position of lane `i` out of `total` lanes; every lane lies in
      [0.05, 0.95). */
  function LanePosition(i: nat, total: nat): (x: real)
    requires total > 0
    ensures i < total ==> StartX <= x < StartX + LaneArea
  {
    PositionBounded(i, total);
    StartX + i as real * (LaneArea / total as real)
  }

  lemma PositionBounded(i: nat, total: nat)
    requires total > 0
    ensures i < total ==> 0.0 <= i as real * (LaneArea / total as real) < LaneArea
  {
    var spacing := LaneArea / total as real;
    assert spacing * total as real == LaneArea;
    if i < total {
      assert i as real * spacing < total as real * spacing;
    }
  }

  /** Lane positions are strictly increasing in the lane index. */
  lemma PositionsIncreasing(total: nat)
    requires total > 0
    ensures forall i: nat, j: nat :: i < j ==> LanePosition(i, total) < LanePosition(j, total)
  {
    var spacing := LaneArea / total as real;
    forall i: nat, j: nat | i < j ensures LanePosition(i, total) < LanePosition(j, total) {
      assert (j - i) as real * spacing > 0.0;
      assert j as real * spacing == i as real * spacing + (j - i) as real * spacing;
    }
  }

  /** The arguments of `visualize_gel` that the layout uses. */
  datatype GelInput = GelInput(lengths: seq<int>, norm: seq<real>, cm: seq<real>,
                               controlNorm: Option<real>, controlCm: Option<real>,
                               controlLength: Option<int>)

  /** `control_length is not None`. */
  predicate HasControl(g: GelInput) {
    g.controlLength.Some?
  }

  /** What drawing the lanes needs: one value of each kind per sample, and the
      control's values when a control length is given. */
  predicate WellFormed(g: GelInput) {
    && |g.norm| == |g.lengths| && |g.cm| == |g.lengths|
    && (HasControl(g) ==> g.controlNorm.Some? && g.controlCm.Some?)
  }

  /** The data one lane is drawn from: the fragment length, the band's vertical
      position (its normalised value), the cm label and whether it is the control. */
  datatype Band = Band(length: int, distance: real, realDist: real, isControl: bool)

  function BandAt(g: GelInput, i: nat): (b: Band)
    requires WellFormed(g) && i < TotalLanes(|g.lengths|, HasControl(g))
    ensures b.isControl <==> HasControl(g) && i == 0
    ensures b.isControl ==>
      b == Band(g.controlLength.value, g.controlNorm.value, g.controlCm.value, true)
  {
    match ContentOf(i, |g.lengths|, HasControl(g))
    case ControlLane =>
      Band(g.controlLength.value, g.controlNorm.value, g.controlCm.value, true)
    case SampleLane(k) =>
      Band(g.lengths[k], g.norm[k], g.cm[k], false)
  }

  /** Lane 0 is the control's when there is one, and sample `k` is drawn, with its
      own length, value and cm label, in lane `k + 1` with a control and lane `k`
      without. */
  lemma BandsShowSamples(g: GelInput)
    requires WellFormed(g)
    ensures HasControl(g) ==>
      BandAt(g, 0) == Band(g.controlLength.value, g.controlNorm.value, g.controlCm.value, true)
    ensures forall k: nat :: k < |g.lengths| ==>
      LaneOf(k, HasControl(g)) < TotalLanes(|g.lengths|, HasControl(g))
      && BandAt(g, LaneOf(k, HasControl(g))) == Band(g.lengths[k], g.norm[k], g.cm[k], false)
  {
    SampleLanesBijective(|g.lengths|, HasControl(g));
  }
}
