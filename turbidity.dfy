/**
 * The turbidity probe driver of the sampler package: one reading, scaled
 * from the 0 to 5 V range onto 0 to 1000 NTU and rounded to two decimals.
 */
module Turbidity {
  import opened Wrappers
  import opened Numeric
  import opened Adc

  datatype TurbiditySensor = TurbiditySensor(pin: Pin)

  /** The constructor: channels 0 to 3 select an input, any other channel raises ValueError. */
  function New(channel: int): (r: Result<TurbiditySensor, PyError>)
    ensures r.Ok? <==> 0 <= channel <= 3
    ensures r.Ok? ==> r.value.pin == channel
    ensures r.Err? ==> r.error == ValueError
  {
    match Select(channel)
    case Ok(pin) => Ok(TurbiditySensor(pin))
    case Err(e) => Err(e)
  }

  /**
   * `read` on the one reading `voltage` taken from the sensor's input:
   * 200 NTU per volt, to the nearest hundredth.
   */
  function Read(sensor: TurbiditySensor, voltage: real): (ntu: real)
    ensures 200.0 * voltage - 0.005 < ntu <= 200.0 * voltage + 0.005
    ensures (ntu * 100.0).Floor as real == ntu * 100.0
  {
    Round2((voltage / 5.0) * 1000.0)
  }

  /** 0 V reads as 0 NTU and full scale, 5 V, as 1000 NTU. */
  lemma ReadScaleEnds(sensor: TurbiditySensor)
    ensures Read(sensor, 0.0) == 0.0
    ensures Read(sensor, 5.0) == 1000.0
  {
    Round2OfHundredths(0);
    Round2OfHundredths(100000);
  }

  /** A higher voltage never reads as a lower turbidity. */
  lemma ReadMonotone(sensor: TurbiditySensor, v: real, w: real)
    requires v <= w
    ensures Read(sensor, v) <= Read(sensor, w)
  {
    Round2Monotone((v / 5.0) * 1000.0, (w / 5.0) * 1000.0);
  }
}
