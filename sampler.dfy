/**
 * What the two sampler programs record per cycle: the seven-column sample
 * row that `log_sample` writes to CSV and `send_sample` uploads, the trace
 * of what a cycle does, and the drift-free wait until the next deadline.
 * Clock readings are integers of seconds, passed in.
 */
module SampleLog {
  import opened Wrappers
  import Upload

  /** A value in a sample row: Python's None, a string or a number. */
  datatype Value = Null | Text(text: string) | Number(x: real)

  /** The CSV columns of `log_sample`, in order. */
  const FieldNames: seq<string> :=
    ["device_id", "measured_at", "uptime", "turbidity", "temperature", "total_dissolved_solids", "ph"]

  function OrNull(v: Option<real>): Value
  {
    match v
    case Some(x) => Number(x)
    case None => Null
  }

  /** The dict built as `sample` in each cycle, one field per column. */
  datatype Sample = Sample(deviceId: Option<string>, measuredAt: string, uptime: real,
                           turbidity: Option<real>, temperature: Option<real>,
                           totalDissolvedSolids: Option<real>, ph: Option<real>)

  /** The sample as the dict that is written as a CSV row and sent as JSON. */
  function Fields(sample: Sample): (row: map<string, Value>)
    ensures row.Keys == set f | f in FieldNames
    ensures row["uptime"] == Number(sample.uptime) && row["ph"] == OrNull(sample.ph)
  {
    map[
      "device_id" := (match sample.deviceId case Some(d) => Text(d) case None => Null),
      "measured_at" := Text(sample.measuredAt),
      "uptime" := Number(sample.uptime),
      "turbidity" := OrNull(sample.turbidity),
      "temperature" := OrNull(sample.temperature),
      "total_dissolved_solids" := OrNull(sample.totalDissolvedSolids),
      "ph" := OrNull(sample.ph)]
  }

  /** The seven column names are distinct, so every row has exactly seven keys. */
  lemma SevenDistinctFields()
    ensures |FieldNames| == 7
    ensures forall i, j :: 0 <= i < j < |FieldNames| ==> FieldNames[i] != FieldNames[j]
    ensures |set f | f in FieldNames| == 7
  {
    DistinctElements(FieldNames);
  }

  /** A sequence without repeats has as many distinct elements as it has entries. */
  lemma {:induction false} DistinctElements<T>(s: seq<T>)
    requires forall i, j :: 0 <= i < j < |s| ==> s[i] != s[j]
    ensures |set x | x in s| == |s|
  {
    if s != [] {
      var tail := s[1..];
      DistinctElements(tail);
      assert s[0] !in tail by {
        forall k | 0 <= k < |tail| ensures tail[k] != s[0] {
          assert tail[k] == s[k + 1];
        }
      }
      assert (set x | x in s) == {s[0]} + (set x | x in tail) by {
        assert s == [s[0]] + tail;
      }
    }
  }

  /** `max(0, deadline - now)`: the wait until the deadline, never negative. */
  function Delay(deadline: int, now: int): (d: int)
    ensures d >= 0 && d >= deadline - now
    ensures d == 0 || d == deadline - now
    ensures now >= deadline ==> d == 0
  {
    if deadline - now > 0 then deadline - now else 0
  }

  /** What a sampler cycle does, in order. */
  datatype Event =
    | Logged(sample: Sample)
    | Sent(sample: Sample, steps: seq<Upload.Step>)
    | Spawned(sample: Sample)
    | Slept(seconds: int)

  /**
   * What successive cycles do: cycle `k`, counting from 1, runs `cycle`
   * on its tick against the deadline `firstDeadline + interval * k`.
   */
  function CycleTrace<T>(cycle: (int, T) -> seq<Event>, firstDeadline: int, interval: int, ticks: seq<T>): seq<Event>
  {
    if ticks == [] then []
    else
      var n := |ticks|;
      CycleTrace(cycle, firstDeadline, interval, ticks[..n - 1])
        + cycle(firstDeadline + interval * n, ticks[n - 1])
  }

  /**
   * When every cycle records three events, the trace is the cycles one
   * after the other: events `3i` to `3i + 2` are cycle `i`, run against
   * the deadline `firstDeadline + interval * (i + 1)`.
   */
  lemma {:induction false} CycleTraceInOrder<T>(cycle: (int, T) -> seq<Event>, firstDeadline: int, interval: int, ticks: seq<T>)
    requires forall deadline, tick :: |cycle(deadline, tick)| == 3
    ensures |CycleTrace(cycle, firstDeadline, interval, ticks)| == 3 * |ticks|
    ensures forall i :: 0 <= i < |ticks| ==>
      CycleTrace(cycle, firstDeadline, interval, ticks)[3 * i..3 * i + 3]
        == cycle(firstDeadline + interval * (i + 1), ticks[i])
  {
    if ticks != [] {
      var n := |ticks|;
      CycleTraceInOrder(cycle, firstDeadline, interval, ticks[..n - 1]);
      var events := CycleTrace(cycle, firstDeadline, interval, ticks);
      var before := CycleTrace(cycle, firstDeadline, interval, ticks[..n - 1]);
      forall i | 0 <= i < n
        ensures events[3 * i..3 * i + 3] == cycle(firstDeadline + interval * (i + 1), ticks[i])
      {
        if i < n - 1 {
          assert ticks[..n - 1][i] == ticks[i];
          assert events[3 * i..3 * i + 3] == before[3 * i..3 * i + 3];
        } else {
          assert events[3 * i..3 * i + 3] == events[|before|..];
        }
      }
    }
  }
}

/**
 * The synchronous sampler: module-level start time and deadline, and a
 * `loop` that logs a sample, uploads it with retries, advances the
 * deadline by the 15-minute interval and sleeps until it.
 */
module SyncSampler {
  import opened Wrappers
  import opened SampleLog
  import Upload

  /** `SAMPLING_INTERVAL`, in minutes. */
  const SamplingInterval: int := 15

  /**
   * The four sensor values `loop` unpacks. The call it makes,
   * `sensors.read_all()`, names no method of `Sensors`, so as written no
   * cycle gets this far (see README); the model gives the cycle the values
   * it is meant to read.
   */
  datatype Readings = Readings(turbidity: Option<real>, temperature: Option<real>,
                               totalDissolvedSolids: Option<real>, ph: Option<real>)

  /**
   * The inputs of one `loop`: the timestamp text, the clock when uptime is
   * taken, the sensor values, the outcome of each POST attempt, and the
   * clock when the wait is computed.
   */
  datatype Tick = Tick(measuredAt: string, uptimeClock: int, readings: Readings,
                       outcome: nat -> bool, sleepClock: int)

  /** The row one cycle builds: uptime is counted from the start time. */
  function Row(deviceId: Option<string>, startTime: int, tick: Tick): (row: Sample)
    ensures row.uptime == (tick.uptimeClock - startTime) as real
  {
    Sample(deviceId, tick.measuredAt, (tick.uptimeClock - startTime) as real,
      tick.readings.turbidity, tick.readings.temperature,
      tick.readings.totalDissolvedSolids, tick.readings.ph)
  }

  /** What one cycle does, given the deadline it advances to. */
  function Cycle(deviceId: Option<string>, startTime: int, deadline: int, tick: Tick): seq<Event>
  {
    var row := Row(deviceId, startTime, tick);
    [Logged(row), Sent(row, Upload.Schedule(tick.outcome, 5, 2)), Slept(Delay(deadline, tick.sleepClock))]
  }

  /** What successive cycles do, the deadline advancing by the interval each time from `firstDeadline`. */
  function Cycles(deviceId: Option<string>, startTime: int, firstDeadline: int, ticks: seq<Tick>): seq<Event>
  {
    CycleTrace((deadline, tick) => Cycle(deviceId, startTime, deadline, tick), firstDeadline, SamplingInterval * 60, ticks)
  }

  /**
   * Cycle `i` logs its row, then sends that same row with the retry
   * schedule (so the row is logged whatever the upload does), then sleeps
   * until `firstDeadline + 900 * (i + 1)`: the deadlines do not drift
   * however long a cycle takes.
   */
  lemma {:induction false} CyclesInOrder(deviceId: Option<string>, startTime: int, firstDeadline: int, ticks: seq<Tick>)
    ensures |Cycles(deviceId, startTime, firstDeadline, ticks)| == 3 * |ticks|
    ensures forall i :: 0 <= i < |ticks| ==>
      Cycles(deviceId, startTime, firstDeadline, ticks)[3 * i..3 * i + 3]
        == Cycle(deviceId, startTime, firstDeadline + 900 * (i + 1), ticks[i])
  {
    CycleTraceInOrder((deadline, tick) => Cycle(deviceId, startTime, deadline, tick), firstDeadline, SamplingInterval * 60, ticks);
  }

  class Sampler {
    const deviceId: Option<string>
    var startTime: int
    var nextSampleTime: int
    /** Everything the loop has done, in order. */
    var events: seq<Event>

    /** `setup`: both the start time and the first deadline are read from the clock. */
    constructor Setup(deviceId: Option<string>, startClock: int, deadlineClock: int)
      ensures this.deviceId == deviceId
      ensures startTime == startClock && nextSampleTime == deadlineClock && events == []
    {
      this.deviceId := deviceId;
      startTime := startClock;
      nextSampleTime := deadlineClock;
      events := [];
    }

    /**
     * `loop`: log the row, then send it, then advance the deadline by
     * exactly the interval and sleep for what is left of it.
     */
    method Loop(tick: Tick) returns (sleepTime: int)
      modifies this
      ensures startTime == old(startTime)
      ensures nextSampleTime == old(nextSampleTime) + SamplingInterval * 60
      ensures sleepTime == Delay(nextSampleTime, tick.sleepClock)
      ensures events == old(events) + Cycle(deviceId, startTime, nextSampleTime, tick)
    {
      var uptime := (tick.uptimeClock - startTime) as real;
      var sample := Sample(deviceId, tick.measuredAt, uptime,
        tick.readings.turbidity, tick.readings.temperature,
        tick.readings.totalDissolvedSolids, tick.readings.ph);
      events := events + [Logged(sample)];
      var steps, _ := Upload.SendSample(tick.outcome);
      events := events + [Sent(sample, steps)];
      nextSampleTime := nextSampleTime + SamplingInterval * 60;
      sleepTime := Delay(nextSampleTime, tick.sleepClock);
      events := events + [Slept(sleepTime)];
    }

    /** `main`'s `while True: loop()`, for as many cycles as there are ticks. */
    method Run(ticks: seq<Tick>)
      modifies this
      ensures startTime == old(startTime)
      ensures nextSampleTime == old(nextSampleTime) + SamplingInterval * 60 * |ticks|
      ensures events == old(events) + Cycles(deviceId, startTime, old(nextSampleTime), ticks)
    {
      for i := 0 to |ticks|
        invariant startTime == old(startTime)
        invariant nextSampleTime == old(nextSampleTime) + SamplingInterval * 60 * i
        invariant events == old(events) + Cycles(deviceId, startTime, old(nextSampleTime), ticks[..i])
      {
        var _ := Loop(ticks[i]);
        assert ticks[..i + 1][..i] == ticks[..i];
      }
      assert ticks[..|ticks|] == ticks;
    }
  }
}

/**
 * The asynchronous sampler: a local deadline advanced by the interval each
 * cycle; the upload of each row is started as a task and the row is logged
 * right after, without waiting for the upload.
 */
module AsyncSampler {
  import opened Wrappers
  import opened SampleLog

  /** `SAMPLING_INTERVAL`, in seconds. */
  const SamplingInterval: int := 15 * 60

  /** The inputs of one cycle: the timestamp text, and the clock when uptime is taken and when the wait is computed. */
  datatype Tick = Tick(measuredAt: string, uptimeClock: int, sleepClock: int)

  /** The row of a cycle: no sensor is read, so the four values are None. */
  function Row(deviceId: Option<string>, startTime: int, tick: Tick): (row: Sample)
    ensures row.uptime == (tick.uptimeClock - startTime) as real
    ensures row.turbidity == row.temperature == row.totalDissolvedSolids == row.ph == None
  {
    Sample(deviceId, tick.measuredAt, (tick.uptimeClock - startTime) as real, None, None, None, None)
  }

  /** What one cycle does, given the deadline it advances to. */
  function Cycle(deviceId: Option<string>, startTime: int, deadline: int, tick: Tick): seq<Event>
  {
    var row := Row(deviceId, startTime, tick);
    [Spawned(row), Logged(row), Slept(Delay(deadline, tick.sleepClock))]
  }

  /** What successive cycles do, the deadline advancing by the interval each time from `firstDeadline`. */
  function Cycles(deviceId: Option<string>, startTime: int, firstDeadline: int, ticks: seq<Tick>): seq<Event>
  {
    CycleTrace((deadline, tick) => Cycle(deviceId, startTime, deadline, tick), firstDeadline, SamplingInterval, ticks)
  }

  /**
   * Cycle `i` starts the upload of its row, logs that same row without
   * waiting for the upload, then sleeps until `firstDeadline + 900 * (i + 1)`.
   */
  lemma {:induction false} CyclesInOrder(deviceId: Option<string>, startTime: int, firstDeadline: int, ticks: seq<Tick>)
    ensures |Cycles(deviceId, startTime, firstDeadline, ticks)| == 3 * |ticks|
    ensures forall i :: 0 <= i < |ticks| ==>
      Cycles(deviceId, startTime, firstDeadline, ticks)[3 * i..3 * i + 3]
        == Cycle(deviceId, startTime, firstDeadline + 900 * (i + 1), ticks[i])
  {
    CycleTraceInOrder((deadline, tick) => Cycle(deviceId, startTime, deadline, tick), firstDeadline, SamplingInterval, ticks);
  }

  /**
   * `sampler_loop`, for as many cycles as there are ticks: each cycle
   * starts the upload of its row, logs the row, advances the deadline by
   * exactly the interval and waits `max(0, deadline - now)`.
   */
  method SamplerLoop(deviceId: Option<string>, startTime: int, firstDeadline: int, ticks: seq<Tick>)
    returns (events: seq<Event>, nextSampleTime: int)
    ensures nextSampleTime == firstDeadline + SamplingInterval * |ticks|
    ensures events == Cycles(deviceId, startTime, firstDeadline, ticks)
  {
    events := [];
    nextSampleTime := firstDeadline;
    for i := 0 to |ticks|
      invariant nextSampleTime == firstDeadline + SamplingInterval * i
      invariant events == Cycles(deviceId, startTime, firstDeadline, ticks[..i])
    {
      var uptime := (ticks[i].uptimeClock - startTime) as real;
      var sample := Sample(deviceId, ticks[i].measuredAt, uptime, None, None, None, None);
      events := events + [Spawned(sample), Logged(sample)];
      nextSampleTime := nextSampleTime + SamplingInterval;
      events := events + [Slept(Delay(nextSampleTime, ticks[i].sleepClock))];
      assert ticks[..i + 1][..i] == ticks[..i];
    }
    assert ticks[..|ticks|] == ticks;
  }
}
