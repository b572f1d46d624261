/**
 * The TDS probe driver of the sampler package. It averages the same 26
 * middle readings out of 30 as the core driver, applies the same linear
 * temperature compensation and scales the result linearly to ppm. Its
 * compensation temperature is a field that a range-checked setter updates.
 */
module SamplerTds {
  import opened Wrappers
  import opened Numeric
  import opened Sorting
  import opened Adc
  import CoreTds

  /** The linear scale: `(v / 5) * 1000 * 0.5` ppm for a compensated voltage `v`. */
  function VoltageToPpm(v: real): (ppm: real)
    ensures ppm / 100.0 == v
  {
    (v / 5.0) * 1000.0 * 0.5
  }

  /** The value `read` returns for 30 readings at compensation temperature `temperature`. */
  function ReadingsToTds(voltages: seq<real>, temperature: real): Result<real, PyError>
    requires |voltages| == CoreTds.SampleCount
  {
    match CoreTds.Compensate(CoreTds.TrimmedMean(voltages), temperature)
    case Ok(c) => Ok(Round2(VoltageToPpm(c)))
    case Err(e) => Err(e)
  }

  /** The temperatures `set_temperature` accepts. */
  predicate InRange(temperature: real)
  {
    0.0 <= temperature <= 55.0
  }

  class TdsSensor {
    const pin: Pin
    var temperature: real

    /** Stores the input and the temperature; the temperature is not range checked. */
    constructor (pin: Pin, temperature: real := 25.0)
      ensures this.pin == pin && this.temperature == temperature
    {
      this.pin := pin;
      this.temperature := temperature;
    }

    /** `read`: take 30 readings, sort, trim, average, compensate and scale. */
    method Read(voltage: nat -> real) returns (tds: Result<real, PyError>)
      ensures tds == ReadingsToTds(Readings(voltage, CoreTds.SampleCount), temperature)
    {
      var voltages := Collect(voltage, 30);
      voltages := Sort(voltages);
      CoreTds.TrimKeepsMiddle(Readings(voltage, CoreTds.SampleCount));
      var trimmed := PySlice(voltages, 2, -2);
      var avgVoltage := Mean(trimmed);
      assert avgVoltage == CoreTds.TrimmedMean(Readings(voltage, CoreTds.SampleCount));
      var compensationCoeff := CoreTds.CompensationCoefficient(temperature);
      if compensationCoeff == 0.0 {
        assert CoreTds.Compensate(avgVoltage, temperature) == Err(ZeroDivisionError);
        return Err(ZeroDivisionError);
      }
      var compensatedVoltage := avgVoltage / compensationCoeff;
      assert CoreTds.Compensate(avgVoltage, temperature) == Ok(compensatedVoltage);
      tds := Ok(Round2(VoltageToPpm(compensatedVoltage)));
    }

    /**
     * `set_temperature`: a temperature from 0 to 55 inclusive is stored;
     * any other raises ValueError and leaves the setting as it was.
     */
    method SetTemperature(t: real) returns (r: Result<(), PyError>)
      modifies this
      ensures r.Ok? <==> InRange(t)
      ensures r.Ok? ==> temperature == t
      ensures r.Err? ==> r.error == ValueError && temperature == old(temperature)
    {
      if !(0.0 <= t <= 55.0) {
        return Err(ValueError);
      }
      temperature := t;
      r := Ok(());
    }

    /** `get_temperature`. */
    method GetTemperature() returns (t: real)
      ensures t == temperature
    {
      t := temperature;
    }

    /** A sequence of `set_temperature` calls, some of which may raise. */
    method SetTemperatures(ts: seq<real>)
      modifies this
      ensures temperature == LastAccepted(old(temperature), ts)
    {
      for i := 0 to |ts|
        invariant temperature == LastAccepted(old(temperature), ts[..i])
      {
        var _ := SetTemperature(ts[i]);
        assert ts[..i + 1] == ts[..i] + [ts[i]];
        LastAcceptedStep(old(temperature), ts[..i], ts[i]);
      }
      assert ts[..|ts|] == ts;
    }
  }

  /** The setting after `set_temperature` was called with each of `ts` in turn. */
  function LastAccepted(initial: real, ts: seq<real>): real
  {
    if ts == [] then initial
    else if InRange(ts[|ts| - 1]) then ts[|ts| - 1]
    else LastAccepted(initial, ts[..|ts| - 1])
  }

  lemma LastAcceptedStep(initial: real, ts: seq<real>, t: real)
    ensures LastAccepted(initial, ts + [t]) == if InRange(t) then t else LastAccepted(initial, ts)
  {
    assert (ts + [t])[..|ts|] == ts;
  }

  /** The position of the last temperature in `ts` that is in range, if any. */
  function LastInRange(ts: seq<real>): (r: Option<nat>)
    ensures r.Some? ==> r.value < |ts| && InRange(ts[r.value])
  {
    if ts == [] then None
    else if InRange(ts[|ts| - 1]) then Some(|ts| - 1)
    else LastInRange(ts[..|ts| - 1])
  }

  /** No temperature after the last in-range one is in range, and with none, none is. */
  lemma {:induction false} LastInRangeIsLast(ts: seq<real>)
    ensures LastInRange(ts).Some? ==> forall k :: LastInRange(ts).value < k < |ts| ==> !InRange(ts[k])
    ensures LastInRange(ts).None? ==> forall k :: 0 <= k < |ts| ==> !InRange(ts[k])
  {
    if ts != [] && !InRange(ts[|ts| - 1]) {
      var init := ts[..|ts| - 1];
      LastInRangeIsLast(init);
      forall k | 0 <= k < |init| ensures ts[k] == init[k] { }
    }
  }

  /**
   * `get_temperature` gives the last temperature `set_temperature`
   * accepted, or the constructor's value when it accepted none.
   */
  lemma {:induction false} LastAcceptedIsLastInRange(initial: real, ts: seq<real>)
    ensures LastAccepted(initial, ts) == match LastInRange(ts) case Some(j) => ts[j] case None => initial
  {
    if ts != [] && !InRange(ts[|ts| - 1]) {
      LastAcceptedIsLastInRange(initial, ts[..|ts| - 1]);
      var j := LastInRange(ts[..|ts| - 1]);
      if j.Some? {
        assert ts[..|ts| - 1][j.value] == ts[j.value];
      }
    }
  }

  /**
   * Once the setting is in range, `read` never raises: the compensation
   * coefficient is then at least 0.5.
   */
  lemma InRangeNeverRaises(voltages: seq<real>, temperature: real)
    requires |voltages| == CoreTds.SampleCount && InRange(temperature)
    ensures ReadingsToTds(voltages, temperature).Ok?
  {
  }

  /** At 25 degrees the result is 100 ppm per averaged volt, to the nearest hundredth. */
  lemma ReadAt25(voltages: seq<real>)
    requires |voltages| == CoreTds.SampleCount
    ensures ReadingsToTds(voltages, 25.0) == Ok(Round2(100.0 * CoreTds.TrimmedMean(voltages)))
  {
    CoreTds.CompensationNeutralAt25(CoreTds.TrimmedMean(voltages));
  }

  /** The result does not depend on the order the readings arrived in. */
  lemma ReadOrderIndependent(voltages: seq<real>, reordered: seq<real>, temperature: real)
    requires |voltages| == CoreTds.SampleCount && multiset(voltages) == multiset(reordered)
    ensures |reordered| == CoreTds.SampleCount
    ensures ReadingsToTds(voltages, temperature) == ReadingsToTds(reordered, temperature)
  {
    assert |reordered| == |multiset(reordered)| == |multiset(voltages)| == |voltages|;
    SortPermutationInvariant(voltages, reordered);
  }

  /**
   * The constructor's temperature is not checked: a sensor built at -25
   * degrees raises ZeroDivisionError on every read.
   */
  lemma UncheckedConstructorTemperature(voltages: seq<real>)
    requires |voltages| == CoreTds.SampleCount
    ensures ReadingsToTds(voltages, -25.0) == Err(ZeroDivisionError)
  {
  }

  /** The constructor: channels 0 to 3 select an input, any other channel raises ValueError. */
  method New(channel: int, temperature: real := 25.0) returns (r: Result<TdsSensor, PyError>)
    ensures r.Ok? <==> 0 <= channel <= 3
    ensures r.Ok? ==> fresh(r.value) && r.value.pin == channel && r.value.temperature == temperature
    ensures r.Err? ==> r.error == ValueError
  {
    var adcChannel := Select(channel);
    if adcChannel.Err? {
      return Err(ValueError);
    }
    var sensor := new TdsSensor(adcChannel.value, temperature);
    r := Ok(sensor);
  }
}
