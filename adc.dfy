/**
 * The ADS1115 analog inputs as the sensor drivers select them: the pin
 * attribute `ADS.P<channel>` exists for channels 0 to 3 only, and a
 * missing attribute is turned into ValueError.
 */
module Adc {
  import opened Wrappers

  /** One of the four single-ended inputs P0 to P3. */
  type Pin = x: int | 0 <= x <= 3

  /** `getattr(ADS, f'P{channel}')`, with AttributeError turned into ValueError. */
  function Select(channel: int): (r: Result<Pin, PyError>)
    ensures r.Ok? <==> 0 <= channel <= 3
    ensures r.Ok? ==> r.value == channel
    ensures r.Err? ==> r.error == ValueError
  {
    if 0 <= channel <= 3 then Ok(channel) else Err(ValueError)
  }

  /** How many values `range(n)` yields. */
  function RangeLength(n: int): nat
  {
    if n < 0 then 0 else n
  }

  /** The first `n` readings of a channel whose i-th reading is `voltage(i)`. */
  function Readings(voltage: nat -> real, n: nat): (vs: seq<real>)
    ensures |vs| == n && forall i :: 0 <= i < n ==> vs[i] == voltage(i)
  {
    if n == 0 then [] else Readings(voltage, n - 1) + [voltage(n - 1)]
  }

  /**
   * `[chan.voltage for _ in range(n)]`: exactly `n` readings, in the order
   * the channel delivers them (none for `n <= 0`).
   */
  method Collect(voltage: nat -> real, n: int) returns (vs: seq<real>)
    ensures vs == Readings(voltage, RangeLength(n))
  {
    vs := [];
    var i := 0;
    while i < n
      invariant 0 <= i <= RangeLength(n)
      invariant vs == Readings(voltage, i)
    {
      vs := vs + [voltage(i)];
      i := i + 1;
    }
  }
}
