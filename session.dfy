/**
 * The interactive calibration session: a sensor name that fixes the units
 * and the ADC channel, stabilised sampling with a status line, and a
 * button that appends the stable mean and the entered standard to two
 * parallel lists. Widgets and the plot are reduced to the entered standard
 * and the status text; the voltage source is a finite sequence.
 */
module Session {
  import opened Wrappers
  import opened Numeric
  import opened Stability
  import opened Adc

  /** The units shown next to the standard. */
  function Units(sensor: string): (u: string)
    ensures sensor == "pH" <==> u == "pH"
    ensures sensor == "Turbidity" <==> u == "NTU"
    ensures sensor == "TDS" <==> u == "ppm"
    ensures u == "Unknown" <==> sensor !in {"pH", "Turbidity", "TDS"}
  {
    if sensor == "pH" then "pH"
    else if sensor == "Turbidity" then "NTU"
    else if sensor == "TDS" then "ppm"
    else "Unknown"
  }

  /** The ADC pin: P0 for pH, P1 for TDS, P2 for turbidity, None otherwise. */
  function Channel(sensor: string): (c: Option<Pin>)
    ensures c.Some? <==> sensor in {"pH", "TDS", "Turbidity"}
    ensures c.Some? ==> c.value != 3
    ensures sensor == "pH" ==> c == Some(0)
    ensures sensor == "TDS" ==> c == Some(1)
    ensures sensor == "Turbidity" ==> c == Some(2)
  {
    if sensor == "pH" then Some(0)
    else if sensor == "TDS" then Some(1)
    else if sensor == "Turbidity" then Some(2)
    else None
  }

  /** A sensor has a channel exactly when it has known units, and no two sensors share a channel. */
  lemma ChannelIffUnits(a: string, b: string)
    ensures Channel(a).Some? <==> Units(a) != "Unknown"
    ensures Channel(a).Some? && Channel(b).Some? && a != b ==> Channel(a) != Channel(b)
  {
  }

  /** The status line. */
  datatype Status = Waiting | Collecting(count: nat, size: nat) | Stabilizing | Stable

  /** The status after a sample that did not stabilise, with `count` samples in a window of `size`. */
  function Progress(count: nat, size: nat): (s: Status)
    ensures s == Stabilizing <==> count == size
    ensures s.Collecting? ==> s.count == count && s.size == size
    ensures count != size ==> s == Collecting(count, size)
  {
    if count == size then Stabilizing else Collecting(count, size)
  }

  class CalibrationSession {
    const windowSize: nat
    const stabilizationTolerance: real
    const samplingRate: real
    const sensor: string
    const units: string
    const channel: Option<Pin>
    /** The stable means, one per press of the button. */
    var samples: seq<real>
    /** The standards entered, paired index by index with `samples`. */
    var standards: seq<int>
    /** The integer field for the standard. */
    var standardInput: int
    var status: Status

    /** The two lists grow in lockstep. */
    predicate Valid()
      reads this
    {
      |samples| == |standards|
    }

    constructor(sensor: string, windowSize: nat := 10, stabilizationTolerance: real := 0.1, samplingRate: real := 0.1)
      ensures this.sensor == sensor && units == Units(sensor) && channel == Channel(sensor)
      ensures this.windowSize == windowSize && this.stabilizationTolerance == stabilizationTolerance
      ensures this.samplingRate == samplingRate
      ensures samples == [] && standards == [] && standardInput == 0 && status == Waiting
      ensures Valid()
    {
      this.windowSize := windowSize;
      this.stabilizationTolerance := stabilizationTolerance;
      this.samplingRate := samplingRate;
      this.sensor := sensor;
      units := Units(sensor);
      channel := Channel(sensor);
      samples := [];
      standards := [];
      standardInput := 0;
      status := Waiting;
    }

    /** Typing a value into the standard field. */
    method EnterStandard(value: int)
      modifies this
      ensures standardInput == value
      ensures samples == old(samples) && standards == old(standards) && status == old(status)
    {
      standardInput := value;
    }

    /**
     * `sample_until_stable`: the mean of the first full window whose
     * population standard deviation is below the tolerance, and the status
     * line that the last sample left behind.
     */
    method SampleUntilStable(voltages: seq<real>) returns (mean: Option<real>, consumed: nat)
      modifies this
      ensures (mean, consumed) == Settle(voltages, windowSize, stabilizationTolerance)
      ensures mean.Some? ==> status == Stable
      ensures mean.None? && |voltages| > 0 ==> status == Progress(|Window(voltages, |voltages|, windowSize)|, windowSize)
      ensures |voltages| == 0 ==> status == old(status)
      ensures samples == old(samples) && standards == old(standards) && standardInput == old(standardInput)
    {
      AcceptsOnlyFull(windowSize, stabilizationTolerance);
      var shown;
      mean, consumed, shown := Stabilize(voltages, windowSize, StableWith(windowSize, stabilizationTolerance), status);
      assert (mean, consumed) == Settle(voltages, windowSize, stabilizationTolerance) by {
        SettleIsSettleWith(voltages, windowSize, stabilizationTolerance);
      }
      status := shown;
    }

    /**
     * `start_sampling`: once the voltages stabilise, the mean and the
     * entered standard are appended to the two lists; if they never do,
     * the lists are left as they were.
     */
    method StartSampling(voltages: seq<real>) returns (mean: Option<real>)
      requires Valid()
      modifies this
      ensures Valid()
      ensures mean == Settle(voltages, windowSize, stabilizationTolerance).0
      ensures mean.Some? ==> samples == old(samples) + [mean.value] && standards == old(standards) + [old(standardInput)]
      ensures mean.None? ==> samples == old(samples) && standards == old(standards)
      ensures standardInput == old(standardInput)
      ensures mean.Some? ==> status == Stable
      ensures mean.None? && |voltages| > 0 ==> status == Progress(|Window(voltages, |voltages|, windowSize)|, windowSize)
      ensures |voltages| == 0 ==> status == old(status)
    {
      var consumed;
      mean, consumed := SampleUntilStable(voltages);
      if mean.Some? {
        samples := samples + [mean.value];
        standards := standards + [standardInput];
      }
    }
  }

  /**
   * The loop of `sample_until_stable`, over the voltages read one by one:
   * the deque of the last `windowSize` of them, the acceptance test once
   * it is full, and the status line each sample leaves, starting from the
   * status `shown`.
   */
  method Stabilize(voltages: seq<real>, windowSize: nat, stable: seq<real> -> bool, shown: Status)
    returns (mean: Option<real>, consumed: nat, status: Status)
    requires FullWhenStable(stable, windowSize)
    ensures (mean, consumed) == SettleWith(voltages, windowSize, stable)
    ensures mean.Some? ==> status == Stable
    ensures mean.None? && |voltages| > 0 ==> status == Progress(|Window(voltages, |voltages|, windowSize)|, windowSize)
    ensures |voltages| == 0 ==> status == shown
  {
    var subSamples: seq<real> := [];
    status := shown;
    var i := 0;
    while i < |voltages|
      invariant 0 <= i <= |voltages|
      invariant subSamples == Window(voltages, i, windowSize)
      invariant SearchFrom(voltages, 0, windowSize, stable) == SearchFrom(voltages, i, windowSize, stable)
      invariant i == 0 ==> status == shown
      invariant i > 0 ==> status == Progress(|subSamples|, windowSize)
    {
      WindowIsPushed(voltages, i, windowSize);
      SettleWithStep(voltages, i, windowSize, stable);
      subSamples := Push(subSamples, voltages[i], windowSize);
      i := i + 1;
      if |subSamples| == windowSize {
        if stable(subSamples) {
          return Some(Mean(subSamples)), i, Stable;
        }
        status := Stabilizing;
      } else {
        status := Collecting(|subSamples|, windowSize);
      }
    }
    SettleWithExhausted(voltages, windowSize, stable);
    return None, |voltages|, status;
  }

  /**
   * The session's sampling and the command-line tool's are the same
   * search: both stop at the first full window whose population standard
   * deviation is below the tolerance. With the session's defaults, constant
   * voltages settle after exactly ten samples on that constant.
   */
  lemma DefaultsSettleOnConstant(voltages: seq<real>, c: real)
    requires |voltages| >= 10 && AllEqual(voltages[..10], c)
    ensures Settle(voltages, 10, 0.1) == (Some(c), 10)
  {
    ConstantInputAcceptedWhenFull(voltages, 10, 0.1, c);
  }
}
