/** What one autonomous pass decides (`autonomous_cycle_once`,
    main.py:394-416): the value recorded for each plant's moisture read, and
    the pumps it runs, in plant order. */
module Autonomous {
  import opened Wrappers
  import opened Floats
  import opened Effects

  /** A reading of `read_u16()`. */
  type U16 = x: int | 0 <= x < 0x1_0000

  /** The value stored in `adc_values[i]`: the reading, or 0 when the read raised. */
  function Sample(reading: Option<U16>): (v: U16)
    ensures reading.Some? ==> v == reading.value
    ensures reading.None? ==> v == 0
  {
    match reading
    case Some(r) => r
    case None => 0
  }

  /** `adc_values` after a pass over all plants. */
  function Samples(readings: seq<Option<U16>>): (vs: seq<int>)
    ensures |vs| == |readings|
    ensures forall i :: 0 <= i < |readings| ==> vs[i] == Sample(readings[i])
  {
    seq(|readings|, i requires 0 <= i < |readings| => Sample(readings[i]))
  }

  /** A plant is dry when its recorded value is strictly below its threshold. */
  predicate Dry(readings: seq<Option<U16>>, thresholds: seq<int>, i: nat)
    requires i < |readings| && i < |thresholds|
  {
    Sample(readings[i]) < thresholds[i]
  }

  /** A plant whose read failed is dry exactly when its threshold is above
      zero; otherwise exactly when its reading is below the threshold. */
  lemma DryMeans(readings: seq<Option<U16>>, thresholds: seq<int>, i: nat)
    requires i < |readings| && i < |thresholds|
    ensures readings[i].None? ==> (Dry(readings, thresholds, i) <==> thresholds[i] > 0)
    ensures readings[i].Some? ==> (Dry(readings, thresholds, i) <==> readings[i].value < thresholds[i])
  {
  }

  /** The actuations of a pass over plants `0 .. k-1`: each dry plant's pump,
      for that plant's duration, in increasing plant order. */
  function Plan(readings: seq<Option<U16>>, thresholds: seq<int>, water: seq<Float>, k: nat): (p: seq<Effect>)
    requires k <= |readings| && |readings| == |thresholds| == |water|
    ensures forall j :: 0 <= j < |p| ==>
              p[j].PumpRun? && p[j].plant < k && p[j].secs == water[p[j].plant] &&
              Dry(readings, thresholds, p[j].plant)
    ensures forall j, l :: 0 <= j < l < |p| ==> p[j].plant < p[l].plant
  {
    if k == 0 then []
    else
      Plan(readings, thresholds, water, k - 1) +
      (if Dry(readings, thresholds, k - 1) then [PumpRun(k - 1, water[k - 1])] else [])
  }

  /** A plant's pump runs in the pass exactly when the plant is dry, and then
      for the plant's configured duration. */
  lemma {:induction false} PlanRunsExactlyTheDryPlants(
    readings: seq<Option<U16>>, thresholds: seq<int>, water: seq<Float>, k: nat, i: nat)
    requires k <= |readings| && |readings| == |thresholds| == |water|
    requires i < |readings|
    ensures PumpRun(i, water[i]) in Plan(readings, thresholds, water, k) <==>
              i < k && Dry(readings, thresholds, i)
  {
    if k > 0 {
      PlanRunsExactlyTheDryPlants(readings, thresholds, water, k - 1, i);
    }
  }

  /** With every read failing, every plant whose threshold is above zero is
      watered: the fail-safe bias toward watering. */
  lemma AllReadsFailingWaterEveryPositiveThreshold(
    readings: seq<Option<U16>>, thresholds: seq<int>, water: seq<Float>, i: nat)
    requires |readings| == |thresholds| == |water| && i < |readings|
    requires forall j :: 0 <= j < |readings| ==> readings[j].None?
    ensures PumpRun(i, water[i]) in Plan(readings, thresholds, water, |readings|) <==> thresholds[i] > 0
  {
    PlanRunsExactlyTheDryPlants(readings, thresholds, water, |readings|, i);
  }

  /** Thresholds [1000, 1000], readings [800, 1200], durations [3.0, 3.0]:
      only plant 0 is watered, for 3.0 seconds. */
  lemma DefaultThresholdsScenario()
    ensures Plan([Some(800), Some(1200)], [1000, 1000], [Finite(3.0), Finite(3.0)], 2)
            == [PumpRun(0, Finite(3.0))]
  {
  }
}
