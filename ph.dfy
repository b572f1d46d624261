/**
 * The pH probe driver: it reads `samples` voltages, sorts them, drops the
 * `trim` lowest and `trim` highest, averages the rest and maps the average
 * linearly to pH.
 */
module PhSensor {
  import opened Wrappers
  import opened Numeric
  import opened Sorting
  import opened Adc

  datatype PhSensor = PhSensor(pin: Pin)

  /** The constructor: channels 0 to 3 select an input, any other channel raises ValueError. */
  function New(channel: int): (r: Result<PhSensor, PyError>)
    ensures r.Ok? <==> 0 <= channel <= 3
    ensures r.Ok? ==> r.value.pin == channel
    ensures r.Err? ==> r.error == ValueError
  {
    match Select(channel)
    case Ok(pin) => Ok(PhSensor(pin))
    case Err(e) => Err(e)
  }

  /** `voltages[trim:-trim] if trim * 2 < samples else voltages`. */
  function Trim(sorted: seq<real>, samples: int, trim: int): seq<real>
  {
    if trim * 2 < samples then PySlice(sorted, trim, -trim) else sorted
  }

  /** `sum(s) / len(s)`, which raises ZeroDivisionError on an empty list. */
  function Average(s: seq<real>): (r: Result<real, PyError>)
    ensures r.Err? <==> s == []
    ensures r.Err? ==> r.error == ZeroDivisionError
    ensures r.Ok? ==> r.value == Mean(s)
  {
    if s == [] then Err(ZeroDivisionError) else Ok(Mean(s))
  }

  /** The average of the trimmed, sorted readings. */
  function TrimmedAverage(voltages: seq<real>, samples: int, trim: int): Result<real, PyError>
  {
    Average(Trim(Sort(voltages), samples, trim))
  }

  /** The linear conversion of the averaged voltage to pH. */
  function VoltageToPh(v: real): (ph: real)
    ensures (20.4 - ph) / 5.14 == v
  {
    -5.14 * v + 20.4
  }

  /**
   * The value `read` returns for the readings `voltages`. The wait of
   * `0.05 * samples` seconds after collecting them raises ValueError for a
   * negative count, before anything is averaged.
   */
  function ReadingsToPh(voltages: seq<real>, samples: int, trim: int): Result<real, PyError>
  {
    if samples < 0 then Err(ValueError)
    else match TrimmedAverage(voltages, samples, trim)
    case Ok(v) => Ok(VoltageToPh(v))
    case Err(e) => Err(e)
  }

  /**
   * `read`: collect `samples` readings from the sensor's input, sort them,
   * trim and average them, and convert the average to pH.
   */
  method Read(sensor: PhSensor, voltage: nat -> real, samples: int := 10, trim: int := 2)
    returns (ph: Result<real, PyError>)
    ensures ph == ReadingsToPh(Readings(voltage, RangeLength(samples)), samples, trim)
  {
    var voltages := Collect(voltage, samples);
    if samples < 0 {
      return Err(ValueError);
    }
    voltages := Sort(voltages);
    var trimmed := Trim(voltages, samples, trim);
    if trimmed == [] {
      return Err(ZeroDivisionError);
    }
    var avgVoltage := Mean(trimmed);
    ph := Ok(VoltageToPh(avgVoltage));
  }

  /**
   * With `0 < trim` and `2 * trim < samples`, the sorted readings without
   * the `trim` lowest and `trim` highest are averaged.
   */
  lemma ReadTrimsBothEnds(voltages: seq<real>, samples: int, trim: int)
    requires |voltages| == RangeLength(samples)
    requires 0 < trim && 2 * trim < samples
    ensures |Sort(voltages)[trim..samples - trim]| == samples - 2 * trim
    ensures ReadingsToPh(voltages, samples, trim) == Ok(VoltageToPh(Mean(Sort(voltages)[trim..samples - trim])))
  {
    var sorted := Sort(voltages);
    assert |sorted| == samples;
    TrimMiddle(sorted, trim);
    var middle := sorted[trim..samples - trim];
    assert Trim(sorted, samples, trim) == middle;
    assert |middle| == samples - 2 * trim > 0;
    assert TrimmedAverage(voltages, samples, trim) == Ok(Mean(middle));
  }

  /** When `2 * trim >= samples`, every reading is averaged. */
  lemma ReadAveragesAll(voltages: seq<real>, samples: int, trim: int)
    requires |voltages| == RangeLength(samples)
    requires 0 < samples <= 2 * trim
    ensures ReadingsToPh(voltages, samples, trim) == Ok(VoltageToPh(Mean(voltages)))
  {
    MeanSort(voltages);
  }

  /**
   * With no readings `read` raises: ValueError from the wait when the count
   * is negative, and ZeroDivisionError from the average when it is zero.
   */
  lemma ReadNoSamplesRaises(voltages: seq<real>, samples: int, trim: int)
    requires |voltages| == RangeLength(samples)
    requires samples <= 0
    ensures samples < 0 ==> ReadingsToPh(voltages, samples, trim) == Err(ValueError)
    ensures samples == 0 ==> ReadingsToPh(voltages, samples, trim) == Err(ZeroDivisionError)
  {
    if samples == 0 {
      assert Sort(voltages) == [];
    }
  }

  /** `read` raises ValueError exactly when the sample count is negative. */
  lemma ReadValueErrorIffNegative(voltages: seq<real>, samples: int, trim: int)
    requires |voltages| == RangeLength(samples)
    ensures ReadingsToPh(voltages, samples, trim) == Err(ValueError) <==> samples < 0
  {
    if samples >= 0 {
      assert TrimmedAverage(voltages, samples, trim) != Err(ValueError);
    }
  }

  /** The result does not depend on the order the readings arrived in. */
  lemma ReadOrderIndependent(voltages: seq<real>, reordered: seq<real>, samples: int, trim: int)
    requires multiset(voltages) == multiset(reordered)
    ensures ReadingsToPh(voltages, samples, trim) == ReadingsToPh(reordered, samples, trim)
  {
    SortPermutationInvariant(voltages, reordered);
  }

  /** The averaged voltage lies between the lowest and the highest reading. */
  lemma AverageWithinReadings(voltages: seq<real>, samples: int, trim: int, lo: real, hi: real)
    requires Within(voltages, lo, hi)
    requires TrimmedAverage(voltages, samples, trim).Ok?
    ensures lo <= TrimmedAverage(voltages, samples, trim).value <= hi
  {
    var sorted := Sort(voltages);
    SortWithin(voltages, lo, hi);
    PySliceWithin(sorted, trim, -trim, lo, hi);
    MeanBounds(Trim(sorted, samples, trim), lo, hi);
  }

  /** A higher voltage always means a lower pH. */
  lemma PhDecreasing(v: real, w: real)
    requires v < w
    ensures VoltageToPh(w) < VoltageToPh(v)
  {
  }

  /**
   * The slice the code evidently means, `voltages[trim:len(voltages) - trim]`:
   * trimming nothing keeps every reading.
   */
  function TrimIntended(sorted: seq<real>, trim: nat): (r: seq<real>)
    requires 2 * trim < |sorted|
    ensures |r| == |sorted| - 2 * trim > 0
    ensures forall k :: 0 <= k < |r| ==> r[k] == sorted[trim + k]
  {
    sorted[trim..|sorted| - trim]
  }

  /** For every positive `trim` the intended slice is the written one: only `trim = 0` differs. */
  lemma TrimIntendedAgrees(sorted: seq<real>, samples: int, trim: nat)
    requires |sorted| == samples && 0 < trim && 2 * trim < samples
    ensures Trim(sorted, samples, trim) == TrimIntended(sorted, trim)
  {
    TrimMiddle(sorted, trim);
  }

  /** With the intended slice, `trim = 0` averages all readings instead of raising. */
  lemma TrimIntendedZeroKeepsAll(voltages: seq<real>)
    requires |voltages| > 0
    ensures TrimIntended(Sort(voltages), 0) == Sort(voltages)
    ensures Average(TrimIntended(Sort(voltages), 0)) == Ok(Mean(voltages))
  {
    MeanSort(voltages);
  }

  /** As written, `trim = 0` raises ZeroDivisionError for every non-empty batch. */
  lemma TrimZeroRaises(voltages: seq<real>, samples: int)
    requires samples > 0 && |voltages| == samples
    ensures ReadingsToPh(voltages, samples, 0) == Err(ZeroDivisionError)
  {
    TrimZeroIsEmpty(Sort(voltages));
  }
}
