/** The two halves together: the results of `calculate_mobility` handed to the
    lane layout of `visualize_gel`, for positive sample lengths and an optional
    positive control. */
module Gel {
  import opened Wrappers
  import opened Mobility
  import opened MobilityProperties
  import opened Lanes

  /** Positive integer lengths, as the console input accepts them. */
  ghost predicate ValidInput(lengths: seq<int>, control: Option<int>) {
    && |lengths| > 0
    && (forall i :: 0 <= i < |lengths| ==> lengths[i] > 0)
    && (control.Some? ==> control.value > 0)
  }

  /** The arguments passed to `visualize_gel` after `calculate_mobility`. */
  function GelInputOf(lengths: seq<int>, control: Option<int>): (g: GelInput)
    requires ValidInput(lengths, control)
    ensures WellFormed(g)
    ensures g.lengths == lengths && g.controlLength == control
  {
    var r := CalculateMobility(lengths, control).value;
    GelInput(lengths, r.norm, r.cm, r.controlNorm, r.controlCm, control)
  }

  /** The batch position of the fragment a lane shows: a sample keeps its index,
      the control is the last member of the batch. */
  function BatchIndex(lengths: seq<int>, control: Option<int>, i: nat): (k: nat)
    requires ValidInput(lengths, control)
    requires i < TotalLanes(|lengths|, control.Some?)
    ensures k < |Batch(lengths, control)|
  {
    match ContentOf(i, |lengths|, control.Some?)
    case ControlLane => |lengths|
    case SampleLane(k) => k
  }

  /** Each lane's band is drawn from the batch member at its batch index. */
  lemma BandIsBatchMember(lengths: seq<int>, control: Option<int>, i: nat)
    requires ValidInput(lengths, control)
    requires i < TotalLanes(|lengths|, control.Some?)
    ensures var g, k, b := GelInputOf(lengths, control), BatchIndex(lengths, control, i), Batch(lengths, control);
      && BandAt(g, i).length == b[k]
      && BandAt(g, i).distance == BatchNorm(b)[k]
      && BandAt(g, i).realDist == ToCm(BatchNorm(b))[k]
  {
    match ContentOf(i, |lengths|, control.Some?)
    case ControlLane =>
      ControlAt(lengths, control);
    case SampleLane(k) =>
      SampleAt(lengths, control, k);
  }

  /** Across all lanes, the control's included, a shorter fragment's band sits
      strictly lower on the gel (larger normalised value) and carries a strictly
      smaller cm label; equal lengths are drawn at the same height; every band
      lies in [0,1] and every label in [0,8] cm. */
  lemma BandsOrderedByLength(lengths: seq<int>, control: Option<int>, i: nat, j: nat)
    requires ValidInput(lengths, control)
    requires i < TotalLanes(|lengths|, control.Some?) && j < TotalLanes(|lengths|, control.Some?)
    ensures var g := GelInputOf(lengths, control);
      && (BandAt(g, i).length < BandAt(g, j).length <==> BandAt(g, i).distance > BandAt(g, j).distance)
      && (BandAt(g, i).length < BandAt(g, j).length <==> BandAt(g, i).realDist < BandAt(g, j).realDist)
      && (BandAt(g, i).length == BandAt(g, j).length <==> BandAt(g, i).distance == BandAt(g, j).distance)
      && 0.0 <= BandAt(g, i).distance <= 1.0
      && 0.0 <= BandAt(g, i).realDist <= GelLengthCm
  {
    var b := Batch(lengths, control);
    var ki, kj := BatchIndex(lengths, control, i), BatchIndex(lengths, control, j);
    BandIsBatchMember(lengths, control, i);
    BandIsBatchMember(lengths, control, j);
    BatchNonNegative(lengths, control);
    BatchNormOrder(b, ki, kj);
  }
}
