# Virtual gel electrophoresis: mobility and lane layout

This project models the computational core of a small gel electrophoresis
simulator (`gel_simulator.py`). Given DNA fragment lengths in base pairs and an
optional control length, `calculate_mobility` builds one batch (the samples,
then the control), maps each length `L` to a raw mobility `1/(L + 1e-6)`,
min-max normalises the batch to [0,1] (0.5 for every member when all raw values
are equal), turns each value into a centimetre label `8*(1 - norm)` and splits
the control's results back off the end. `visualize_gel` then lays out one lane
per sample plus one for the control (lane 0), places lane `i` at
`0.05 + i*(0.9/total)` and draws each lane's band from the fragment that lane
shows.

Everything is modelled over Dafny's exact `real` and unbounded `int`:

- `wrappers.dfy`: `Option` (Python's `None`) and `Result` (inputs on which the
  program raises).
- `mobility.dfy`, module `Mobility`: `calculate_mobility` as functions over
  sequences. The control is an `Option<int>` read with Python truthiness
  (`None` and `0` both mean "no control"). An empty batch raises in `np.min`,
  so it is a `Failure(EmptyBatch)`.
- `mobility_properties.dfy`, module `MobilityProperties`: the lemmas. They cover
  order, bounds, the equal-input case, the extremes, the control split and
  a reference definition built from the batch's shortest and longest lengths.
- `lanes.dfy`, module `Lanes`: lane count, lane x-positions (a `Failure(NoLanes)`
  when `0.9 / total_lanes` would divide by zero), and the lane-to-fragment
  selection of the drawing loop.
- `gel.dfy`, module `Gel`: both halves together for positive inputs. Bands
  across all lanes, the control's included, are ordered by fragment length.

The centimetre label is not "mobility x gel length". The code computes
`8*(1 - norm)` (gel_simulator.py:23), which labels the most mobile fragment
0 cm and the least mobile one 8 cm. The model follows the code. This label
disagrees with the drawing itself: a band is drawn at height `norm` (line 88),
where 0 is the well row labelled "Well (0 cm)" and 1 is the row labelled
"Max (8 cm)" (lines 126-127), so a band drawn at the well carries an 8.0 cm
label. The scale ticks of line 117 use the same `8*(1 - y)` as the labels.
`Gel.BandsOrderedByLength` states the code's behaviour: a band farther from
the well has a smaller cm label.

The input list is never changed by `calculate_mobility` (it copies it);
in the model all data are values, so this holds by construction. Determinism
holds likewise: every operation is a function.

## Model

| member | source | states |
|---|---|---|
| Mobility.Batch | gel_simulator.py:10-12 | the batch is the samples in order, followed by the control exactly when the control is truthy |
| Mobility.Raw | gel_simulator.py:14 | the raw mobility `1/(L + eps)` is defined for every integer length and positive for non-negative lengths |
| Mobility.ControlGiven | gel_simulator.py:11 | Python truthiness of the optional control: present and non-zero |
| Mobility.RawAll | gel_simulator.py:14 | one raw mobility per batch member, all positive when no length is negative |
| Mobility.SeqMin | gel_simulator.py:15 | `np.min`: the result is a member of the sequence and no member is smaller |
| Mobility.SeqMax | gel_simulator.py:15 | `np.max`: the result is a member of the sequence and no member is larger |
| Mobility.Normalize | gel_simulator.py:17-20 | min-max normalisation keeps the length of the sequence and puts every value in [0,1] |
| Mobility.Scale | gel_simulator.py:17-20 | one value scaled between the batch extremes (0.5 when they coincide) lies in [0,1] |
| Mobility.Ratio | gel_simulator.py:20 | `(x - min)/(max - min)` lies in [0,1], and is 1 exactly at the maximum and 0 exactly at the minimum |
| Mobility.BatchNorm | gel_simulator.py:14-20 | one normalised value per batch member, each in [0,1] |
| Mobility.ToCm | gel_simulator.py:23 | one label per value; a value in [0,1] gets a label in [0,8]; labels reverse the order of the values; a label is 0 cm exactly at value 1 and 8 cm exactly at value 0 |
| Mobility.CalculateMobility | gel_simulator.py:5-27 | raises exactly on an empty batch; otherwise both sample results have the samples' length, the control results are present exactly when the control is truthy, and every cm label, the control's included, is `8*(1 - norm)` of the same fragment's value across the split |
| MobilityProperties.RawStrictlyDecreasing | gel_simulator.py:14 | a strictly longer non-negative length has a strictly smaller raw mobility |
| MobilityProperties.RawOrder | gel_simulator.py:14 | on non-negative lengths, raw mobility reverses `<` and preserves `==` in both directions |
| MobilityProperties.RawInjective | gel_simulator.py:14 | two integer lengths have the same raw mobility exactly when they are equal |
| MobilityProperties.ExtremesEqualIffAllSame | gel_simulator.py:15-17 | the `max_mob == min_mob` branch is taken exactly when every length in the batch is the same |
| MobilityProperties.BatchNormHalfIffAllSame | gel_simulator.py:17-18 | every normalised value is 0.5 exactly when every length in the batch is the same |
| MobilityProperties.RawMaxIffShortest | gel_simulator.py:14-15 | a member has the maximal raw mobility exactly when it is a shortest length |
| MobilityProperties.RawMinIffLongest | gel_simulator.py:14-15 | a member has the minimal raw mobility exactly when it is a longest length |
| MobilityProperties.ScaleOrder | gel_simulator.py:20 | with distinct extremes, scaling keeps `<` and `==` between values in both directions |
| MobilityProperties.ScaleExtremes | gel_simulator.py:20 | with distinct extremes, only the maximum scales to 1 and only the minimum to 0 |
| MobilityProperties.BatchNormExtremes | gel_simulator.py:14-20 | unless all lengths are equal, a value is exactly 1 iff its length is a shortest one and exactly 0 iff a longest one |
| MobilityProperties.BatchNormOrder | gel_simulator.py:14-20 | normalised mobility is strictly decreasing in length and equal exactly for equal lengths |
| MobilityProperties.ReferenceIsScaledRaw | gel_simulator.py:14-20 | the reference value of a length is its raw mobility scaled between those of the longest and shortest lengths |
| MobilityProperties.RawMaxAt | gel_simulator.py:14-15 | `max_mob` is the raw mobility of any shortest length of the batch |
| MobilityProperties.RawMinAt | gel_simulator.py:14-15 | `min_mob` is the raw mobility of any longest length of the batch |
| MobilityProperties.LongestIndex | gel_simulator.py:14-15 | every non-empty batch of non-negative lengths has a longest member |
| MobilityProperties.BatchNormMatchesReference | gel_simulator.py:14-20 | each normalised value equals `(Raw(L) - Raw(longest))/(Raw(shortest) - Raw(longest))` for the batch's shortest and longest lengths, or 0.5 when those are equal |
| MobilityProperties.SplitControl | gel_simulator.py:25-27 | the sample results followed by the control result are exactly the batch's normalised values and cm labels |
| MobilityProperties.SampleAt | gel_simulator.py:25-27 | sample `i`'s results are those of batch member `i`, whose length is `lengths[i]` |
| MobilityProperties.ControlAt | gel_simulator.py:25-26 | the control's results are those of the last batch member |
| MobilityProperties.MobilityBounds | gel_simulator.py:14-23 | every sample and control value lies in [0,1] and every cm label in [0,8] |
| MobilityProperties.MobilityAllEqual | gel_simulator.py:17-18 | every sample value and the control value are 0.5 exactly when every length in the batch (control included) is the same |
| MobilityProperties.MobilityOrder | gel_simulator.py:14-23 | between samples, shorter means a strictly larger value and a strictly smaller cm label; equal results exactly for equal lengths |
| MobilityProperties.MobilityControlOrder | gel_simulator.py:14-26 | the control is ordered against each sample by length in the same way |
| MobilityProperties.MobilityExtremes | gel_simulator.py:14-23 | unless all batch lengths are equal, a sample is at 1 (0 cm) exactly when it is a shortest length of the batch with the control, and at 0 (8 cm) exactly when a longest |
| MobilityProperties.MobilityControlExtremes | gel_simulator.py:14-26 | unless all batch lengths are equal, the control is at 1 exactly when it is a shortest length of the batch and at 0 exactly when a longest |
| MobilityProperties.ZeroControlIsNoControl | gel_simulator.py:11-12 | a control of 0 is falsy and gives the same results as no control |
| MobilityProperties.LongControlShiftsSamples | gel_simulator.py:11-20 | a control longer than every sample sits at 0, lifts every sample above 0 and changes at least one sample's value compared with the samples alone |
| MobilityProperties.LongControlLiftsSample | gel_simulator.py:11-20 | with a control longer than every sample, each sample's value is above 0 |
| MobilityProperties.AllSameSamplesChange | gel_simulator.py:11-20 | equal samples are all at 0.5 alone and all at exactly 1 once a longer control joins the batch |
| MobilityProperties.LongestSampleChanges | gel_simulator.py:11-20 | the longest of unequal samples is at 0 alone and above 0 with a longer control |
| MobilityProperties.FourFragmentExample | gel_simulator.py:5-27 | for 100, 250, 500, 750 bp: values strictly decreasing from exactly 1 (0 cm) to exactly 0 (8 cm) |
| Lanes.TotalLanes | gel_simulator.py:42-44 | at least one lane per sample; exactly one more than the samples when there is a control and none more otherwise; no lanes only when there are neither samples nor a control |
| Lanes.HasControl | gel_simulator.py:43 | the drawing's reading of the control: present whenever a control length is passed, 0 included |
| Lanes.ContentOf | gel_simulator.py:64-73 | lane 0 shows the control exactly when there is one; every other lane shows a valid sample index |
| Lanes.SampleLanesBijective | gel_simulator.py:42-76 | every sample is shown in exactly one lane (`k + 1` with a control, `k` without), samples appear in order, and every non-control lane shows a sample |
| Lanes.LanePositions | gel_simulator.py:48-60 | fails exactly when there are no lanes; otherwise one position per lane, strictly increasing and within [0.05, 0.95) |
| Lanes.LanePosition | gel_simulator.py:59-60 | `0.05 + i*(0.9/total)` lies in [0.05, 0.95) for every lane `i < total` |
| Lanes.PositionBounded | gel_simulator.py:48-60 | the offset `i*(0.9/total)` of a lane from the first one lies in [0, 0.9) |
| Lanes.PositionsIncreasing | gel_simulator.py:59-60 | lane x-positions are strictly increasing in the lane index |
| Lanes.BandAt | gel_simulator.py:63-76 | the control lane is drawn from the control's length, value and cm label, and only lane 0 of a gel with a control is the control lane |
| Lanes.BandsShowSamples | gel_simulator.py:63-76 | lane 0 shows the control when there is one, and sample `k` is drawn in its own lane from its own length, value and label |
| Gel.GelInputOf | gel_simulator.py:173-183 | the results of `calculate_mobility` for positive inputs are well-formed arguments for drawing |
| Gel.BatchIndex | gel_simulator.py:63-76 | each lane shows a member of the batch |
| Gel.BandIsBatchMember | gel_simulator.py:63-76 | each lane's band carries the length, value and cm label of the batch member it shows |
| Gel.BandsOrderedByLength | gel_simulator.py:63-76 | across all lanes, the control's included, a shorter fragment's band is strictly farther from the well with a strictly smaller cm label, equal lengths are level, bands lie in [0,1] and labels in [0,8] |

## Left out

- Drawing: wells and bands as rectangles, text labels, `tab10` colours and the red control override, the scale ticks, axis setup and `plt.show()` (gel_simulator.py:39, 54-56, 78-133). This output goes through a plotting library that is not part of this model.
- The console input loops of the `__main__` block (gel_simulator.py:135-170). This is I/O. `Gel.ValidInput` stands in for them: at least one sample, every sample positive, and the control absent or positive.
- The `__main__` quirk where a rejected control value stays assigned (gel_simulator.py:164-166) and a later 'skip' passes it on. `Gel.ValidInput` requires the control to be absent or positive, so `Gel` does not cover this path. The two halves on their own do cover it:
  - A rejected negative control, say -5, is truthy (line 11), so it joins the batch. `Mobility.CalculateMobility` accepts any integer and computes its result. The order, extreme and reference lemmas require non-negative lengths, so they say nothing about that batch.
  - A rejected 0 is falsy for `calculate_mobility` (`Mobility.ControlGiven`, `MobilityProperties.ZeroControlIsNoControl`), so the control results are `None` (line 27). But `visualize_gel` treats it as present (`is not None`, line 43; `Lanes.HasControl`). Drawing lane 0 then evaluates `None - band_height/2` (line 88) and raises `TypeError`. `Lanes.WellFormed` requires the control's values whenever a control length is given, which excludes exactly this crash.
- IEEE-754 rounding of `1e-6`, of the division and of the `max_mob == min_mob` comparison. The model uses exact reals. The numpy vectorisation is modelled as elementwise maps over sequences.
- Label formatting (`:.1f`, `f"{length} bp"`) and the lane number text.
- Lane width, band height and well geometry are drawing constants. Only the lane x-positions and the band's vertical value are modelled.
- Order, extreme and reference lemmas assume non-negative lengths, because `1/(L + eps)` is not monotone across negative lengths. The input loop accepts only positive sample lengths. A negative control can still reach `calculate_mobility` through the quirk above.
