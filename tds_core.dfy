/**
 * The TDS probe driver of the core package: 30 readings, sorted, the two
 * lowest and two highest dropped, the remaining 26 averaged, compensated
 * for temperature and converted to ppm by a cubic. The channel and the
 * temperature are stored as given; the reader it builds is not part of
 * this model, so a reading is the value `voltage(i)` of the i-th read.
 */
module CoreTds {
  import opened Wrappers
  import opened Numeric
  import opened Sorting
  import opened Adc

  datatype TdsSensor = TdsSensor(channel: int, temperature: real)

  /** Readings taken per call, and how many are dropped at each end. */
  const SampleCount: nat := 30
  const TrimCount: nat := 2

  /** The mean of the sorted readings without the two lowest and two highest. */
  function TrimmedMean(voltages: seq<real>): real
    requires |voltages| == SampleCount
  {
    Mean(Sort(voltages)[TrimCount..SampleCount - TrimCount])
  }

  /** `samples[2:-2]` on 30 sorted readings keeps the middle 26. */
  lemma TrimKeepsMiddle(voltages: seq<real>)
    requires |voltages| == SampleCount
    ensures PySlice(Sort(voltages), 2, -2) == Sort(voltages)[TrimCount..SampleCount - TrimCount]
    ensures |Sort(voltages)[TrimCount..SampleCount - TrimCount]| == 26
  {
    TrimMiddle(Sort(voltages), 2);
  }

  /** The linear temperature compensation coefficient `1 + 0.02 (T - 25)`. */
  function CompensationCoefficient(temperature: real): real
  {
    1.0 + 0.02 * (temperature - 25.0)
  }

  /** `avg / coeff`, which raises ZeroDivisionError when the coefficient is 0. */
  function Compensate(avg: real, temperature: real): (r: Result<real, PyError>)
    ensures r.Err? <==> temperature == -25.0
    ensures r.Err? ==> r.error == ZeroDivisionError
    ensures r.Ok? ==> r.value * CompensationCoefficient(temperature) == avg
  {
    var coeff := CompensationCoefficient(temperature);
    if coeff == 0.0 then Err(ZeroDivisionError) else Ok(avg / coeff)
  }

  /** At 25 degrees the coefficient is 1 and the voltage is left as it is. */
  lemma CompensationNeutralAt25(avg: real)
    ensures CompensationCoefficient(25.0) == 1.0
    ensures Compensate(avg, 25.0) == Ok(avg)
  {
  }

  /**
   * The cubic is `c` times `133.42 c^2 - 255.86 c + 857.39`, which has no
   * real root, so the cubic has the sign of `c`.
   */
  lemma {:induction false} CubicSign(c: real, cubic: real)
    requires cubic == 133.42 * c * c * c - 255.86 * c * c + 857.39 * c
    ensures c > 0.0 ==> cubic > 0.0
    ensures c < 0.0 ==> cubic < 0.0
  {
    var h := 255.86 / 266.84;
    var q := 133.42 * c * c - 255.86 * c + 857.39;
    assert q == 133.42 * (c - h) * (c - h) + (857.39 - 133.42 * h * h);
    assert (c - h) * (c - h) >= 0.0;
    assert cubic == c * q;
    if c > 0.0 {
      assert c * q > 0.0;
    } else if c < 0.0 {
      assert c * q < 0.0;
    }
  }

  /**
   * The example cubic `0.5 (133.42 c^3 - 255.86 c^2 + 857.39 c)`: it has
   * the sign of the compensated voltage, since its quadratic factor is
   * always positive.
   */
  function CubicPpm(c: real): (ppm: real)
    ensures c == 0.0 ==> ppm == 0.0
    ensures c > 0.0 ==> ppm > 0.0
    ensures c < 0.0 ==> ppm < 0.0
  {
    var cubic := 133.42 * c * c * c - 255.86 * c * c + 857.39 * c;
    CubicSign(c, cubic);
    cubic * 0.5
  }

  /** The value `read` returns for 30 readings taken at `temperature`. */
  function ReadingsToTds(voltages: seq<real>, temperature: real): Result<real, PyError>
    requires |voltages| == SampleCount
  {
    match Compensate(TrimmedMean(voltages), temperature)
    case Ok(c) => Ok(Round2(CubicPpm(c)))
    case Err(e) => Err(e)
  }

  /** `read`: take 30 readings, sort, trim, average, compensate and convert. */
  method Read(sensor: TdsSensor, voltage: nat -> real) returns (tds: Result<real, PyError>)
    ensures tds == ReadingsToTds(Readings(voltage, SampleCount), sensor.temperature)
  {
    var samples := Collect(voltage, 30);
    samples := Sort(samples);
    TrimKeepsMiddle(Readings(voltage, SampleCount));
    var trimmed := PySlice(samples, 2, -2);
    var avgVoltage := Mean(trimmed);
    var compensationCoeff := CompensationCoefficient(sensor.temperature);
    if compensationCoeff == 0.0 {
      return Err(ZeroDivisionError);
    }
    var compensatedVoltage := avgVoltage / compensationCoeff;
    tds := Ok(Round2(CubicPpm(compensatedVoltage)));
  }

  /** The result does not depend on the order the readings arrived in. */
  lemma ReadOrderIndependent(voltages: seq<real>, reordered: seq<real>, temperature: real)
    requires |voltages| == SampleCount && multiset(voltages) == multiset(reordered)
    ensures |reordered| == SampleCount
    ensures ReadingsToTds(voltages, temperature) == ReadingsToTds(reordered, temperature)
  {
    assert |reordered| == |multiset(reordered)| == |multiset(voltages)| == |voltages|;
    SortPermutationInvariant(voltages, reordered);
  }

  /** The averaged voltage lies between the lowest and the highest reading. */
  lemma TrimmedMeanWithinReadings(voltages: seq<real>, lo: real, hi: real)
    requires |voltages| == SampleCount && Within(voltages, lo, hi)
    ensures lo <= TrimmedMean(voltages) <= hi
  {
    SortWithin(voltages, lo, hi);
    MeanBounds(Sort(voltages)[TrimCount..SampleCount - TrimCount], lo, hi);
  }

  /** 30 readings of 0 V give 0 ppm at any temperature other than -25. */
  lemma ZeroVoltsZeroPpm(voltages: seq<real>, temperature: real)
    requires |voltages| == SampleCount && AllEqual(voltages, 0.0)
    requires temperature != -25.0
    ensures ReadingsToTds(voltages, temperature) == Ok(0.0)
  {
    TrimmedMeanWithinReadings(voltages, 0.0, 0.0);
    Round2OfHundredths(0);
  }

  /** At -25 degrees the coefficient is 0 and `read` raises ZeroDivisionError. */
  lemma MinusTwentyFiveRaises(voltages: seq<real>)
    requires |voltages| == SampleCount
    ensures ReadingsToTds(voltages, -25.0) == Err(ZeroDivisionError)
  {
  }
}
