/**
 * The DS18B20 driver of the core package: poll the sysfs file until its
 * first line is ready, then return the number after "t=" on the second
 * line in degrees Celsius, raising RuntimeError when there is no "t=".
 */
module CoreTemperature {
  import opened Wrappers
  import opened OneWire
  import AppState
  import SampleLog

  /** The sensor's `name` property. */
  const Name: string := "temperature"

  /**
   * The name is the key the temperature is kept under, both in the shared
   * state the web app serves and among the sampler's CSV columns.
   */
  lemma NameIsReadingKey()
    ensures Name in AppState.Initial() && AppState.Initial()[Name] == AppState.Null
    ensures Name in SampleLog.FieldNames && SampleLog.FieldNames[4] == Name
  {
  }

  /** What `read` makes of the lines of the read whose first line was ready. */
  function Interpret(lines: seq<string>): Outcome<real>
  {
    if |lines| < 2 then Raised(IndexError)
    else
      match ParseTemperature(lines[1])
      case NoMarker => Raised(RuntimeError)
      case Malformed => Raised(ValueError)
      case Celsius(c) => Returned(c)
  }

  /** What `read` does, given the successive contents of the sysfs file. */
  function ReadingOf(snapshots: seq<seq<string>>): Outcome<real>
  {
    PollThen(snapshots, Interpret)
  }

  /** `read`: poll until ready, then parse the second line of that same read. */
  method Read(snapshots: seq<seq<string>>) returns (r: Outcome<real>)
    ensures r == ReadingOf(snapshots)
  {
    r := ReadThen(snapshots, Interpret);
  }

  /**
   * A value is returned only from a read whose first line is ready, after
   * reads that were all not ready, and it is the temperature on the second
   * line of that same read.
   */
  lemma ReadingFromReadyRead(snapshots: seq<seq<string>>)
    requires ReadingOf(snapshots).Returned?
    ensures exists j :: (0 <= j < |snapshots| && |snapshots[j]| >= 2 && Ready(snapshots[j][0]) &&
      ParseTemperature(snapshots[j][1]) == Celsius(ReadingOf(snapshots).value) &&
      forall i :: 0 <= i < j ==> snapshots[i] != [] && !Ready(snapshots[i][0]))
  {
    FirstReadyIsFirst(snapshots, 0, Ready);
  }

  /** When the second line of the ready read has no "t=", `read` raises RuntimeError. */
  lemma NoMarkerRaises(snapshots: seq<seq<string>>, j: nat)
    requires FirstReadyFrom(snapshots, 0, Ready) == Returned(j)
    requires |snapshots[j]| >= 2 && Find(snapshots[j][1], "t=") == -1
    ensures ReadingOf(snapshots) == Raised(RuntimeError)
  {
  }

  /**
   * A first read whose first line is ready and whose second line holds a
   * temperature reads as that temperature. With
   * `OneWire.ReadyWhenEndsInYes` and `OneWire.ParseTemperatureRoundTrip`:
   * a first line ending in "YES" and a second line ending in "t=23125"
   * read as 23.125 degrees.
   */
  lemma ReadyReadOf(first: string, second: string, rest: seq<seq<string>>, c: real)
    requires Ready(first) && ParseTemperature(second) == Celsius(c)
    ensures ReadingOf([[first, second]] + rest) == Returned(c)
  {
    var snapshots := [[first, second]] + rest;
    assert snapshots[0] == [first, second];
    ReadyAtOnce(snapshots, Ready);
    InterpretCelsius([first, second], c);
  }

  lemma InterpretCelsius(lines: seq<string>, c: real)
    requires |lines| >= 2 && ParseTemperature(lines[1]) == Celsius(c)
    ensures Interpret(lines) == Returned(c)
  {
  }
}

/**
 * The DS18B20 driver of the sampler package: the same polling and parsing,
 * returning the pair (Celsius, Fahrenheit), and None instead of raising
 * when the second line has no "t=".
 */
module SamplerTemperature {
  import opened Wrappers
  import opened OneWire
  import CoreTemperature

  /** `C * 9/5 + 32`, which converts back to Celsius. */
  function CelsiusToFahrenheit(c: real): (f: real)
    ensures (f - 32.0) * 5.0 / 9.0 == c
  {
    c * 9.0 / 5.0 + 32.0
  }

  /** Fahrenheit is an increasing affine image of Celsius: it can be converted back. */
  lemma FahrenheitInvertible(c: real)
    ensures (CelsiusToFahrenheit(c) - 32.0) * 5.0 / 9.0 == c
    ensures CelsiusToFahrenheit(0.0) == 32.0 && CelsiusToFahrenheit(100.0) == 212.0
  {
  }

  /** What `read` makes of the lines of the read whose first line was ready. */
  function Interpret(lines: seq<string>): Outcome<Option<(real, real)>>
  {
    if |lines| < 2 then Raised(IndexError)
    else
      match ParseTemperature(lines[1])
      case NoMarker => Returned(None)
      case Malformed => Raised(ValueError)
      case Celsius(c) => Returned(Some((c, CelsiusToFahrenheit(c))))
  }

  /** What `read` does, given the successive contents of the sysfs file. */
  function ReadingOf(snapshots: seq<seq<string>>): Outcome<Option<(real, real)>>
  {
    PollThen(snapshots, Interpret)
  }

  /** `read`: poll until ready, then parse the second line of that same read. */
  method Read(snapshots: seq<seq<string>>) returns (r: Outcome<Option<(real, real)>>)
    ensures r == ReadingOf(snapshots)
  {
    r := ReadThen(snapshots, Interpret);
  }

  /**
   * The two drivers agree: where the core driver returns c, this one
   * returns (c, its Fahrenheit value); where the core driver raises
   * RuntimeError for a missing "t=", this one returns None; otherwise
   * both do the same.
   */
  lemma AgreesWithCoreDriver(snapshots: seq<seq<string>>)
    ensures CoreTemperature.ReadingOf(snapshots).Returned? <==>
      ReadingOf(snapshots).Returned? && ReadingOf(snapshots).value.Some?
    ensures CoreTemperature.ReadingOf(snapshots).Returned? ==>
      var c := CoreTemperature.ReadingOf(snapshots).value;
      ReadingOf(snapshots).value.value == (c, CelsiusToFahrenheit(c))
    ensures CoreTemperature.ReadingOf(snapshots) == Raised(RuntimeError) <==> ReadingOf(snapshots) == Returned(None)
    ensures CoreTemperature.ReadingOf(snapshots) == OutOfReads <==> ReadingOf(snapshots) == OutOfReads
  {
    match FirstReadyFrom(snapshots, 0, Ready)
    case OutOfReads =>
    case Raised(e) =>
    case Returned(j) =>
      var lines := snapshots[j];
      if |lines| >= 2 {
        match ParseTemperature(lines[1])
        case NoMarker =>
        case Malformed =>
        case Celsius(c) =>
      }
  }

  /** A ready first read with a temperature on its second line gives it in both scales. */
  lemma ReadyReadOf(first: string, second: string, rest: seq<seq<string>>, c: real)
    requires Ready(first) && ParseTemperature(second) == Celsius(c)
    ensures ReadingOf([[first, second]] + rest) == Returned(Some((c, CelsiusToFahrenheit(c))))
  {
    CoreTemperature.ReadyReadOf(first, second, rest, c);
    AgreesWithCoreDriver([[first, second]] + rest);
  }
}
