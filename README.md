# Water-quality sensor station: a Dafny model of its sequential core

The station reads a pH probe, two TDS probe drivers, a turbidity probe and a
DS18B20 temperature probe. Two sampler programs record one seven-column
sample per cycle and upload it with retries. A command-line tool and a
notebook session calibrate a probe: they sample until a window of voltages
is stable, pair the stable means with entered standards and store the fitted
coefficients. A small web-app module keeps the latest readings in a shared
dict.

This project models the logic under that hardware and network glue, and
proves what the code promises about it:

- **Stabilised sampling** (`Stability`, `Calibrate.SampleUntilStable`,
  `Session`). A deque bounded to the window size is filled one voltage at a
  time. No decision is taken before it is full. The first full window whose
  population standard deviation is strictly below the tolerance ends the
  search, and its mean is returned. The standard deviation test is stated as
  `variance < tol * tol`, and `Numeric.StdevBelowTolerance` shows the two
  are equivalent.
- **Calibration bookkeeping** (`Calibrate`):
  - the `ask` default rule;
  - per-standard collection into an insertion-ordered dict, where entering a
    standard again resets its list;
  - flattening into paired x/y arrays;
  - the merge of one sensor's record into the calibration mapping;
  - the settings prompts and the apply/log menu.
- **Sensor conversions** (`Adc`, `PhSensor`, `CoreTds`, `SamplerTds`,
  `Turbidity`). These cover channel selection, N readings that are sorted,
  trimmed and averaged, temperature compensation, and the conversion
  formulas. `SamplerTds.TdsSensor` is a class whose temperature setting a
  range-checked setter updates.
- **1-Wire text** (`OneWire`, `CoreTemperature`, `SamplerTemperature`). The
  driver polls until the first line is ready, then takes the number after
  the first `t=` on the second line and divides it by 1000. The sampler
  driver also returns Fahrenheit, and returns None where the core driver
  raises. Both drivers run the same poll-then-interpret body
  (`OneWire.ReadThen`). The core driver's `name` property is the constant
  `CoreTemperature.Name`.
- **Upload and scheduling** (`Upload`, `SampleLog`, `SyncSampler`,
  `AsyncSampler`). Uploads make bounded attempts with exponential backoff
  and no wait after the last attempt. In the synchronous sampler a negative
  wait raises ValueError out of the upload. Each sampler cycle logs and sends, in
  the order the code uses; the synchronous sampler's cycle is modelled with
  the four sensor values it is meant to read, which the code as written
  never obtains (see Left out). The deadline is drift-free: it advances by the
  interval each cycle, and the wait is `max(0, deadline - now)`.
- **Shared state** (`AppState`). The initial dict, `dict.update` and a
  copying getter.

What the drivers read from hardware, the clock, the network, and prompt
answers all enter as parameters:

- the i-th ADC reading is `voltage(i)`, or an element of a finite `seq<real>`;
- each read of the 1-Wire file is an element of `seq<seq<string>>`;
- POST attempt k succeeds when `outcome(k)` holds;
- clock readings are integer seconds;
- a prompt answer is what the cast made of it, with None when the cast
  raised ValueError.

Loops that the source runs forever run here until such an input runs out.
They then report that, as a None result or the `OutOfReads` outcome.

Two places where the code's behaviour differs from what a reader might expect:

- Both samplers' upload loops match the code. They never wait after the
  last failure, so with the defaults the waits are 2, 4, 8 and 16 seconds.
  The 32 s named in the comment at `sampler/sampler.py:39` is never reached
  (`Upload.DefaultBackoffs`).
- The sampler TDS driver's constructor does not range-check its temperature.
  A sensor built at -25 degrees therefore divides by zero on every read
  (`SamplerTds.UncheckedConstructorTemperature`).

## Model

| member | source | states |
|---|---|---|
| Adc.Select | sampler/sensors/tds.py:7-10 | the pin attribute exists exactly for channels 0 to 3 and is that channel; any other channel gives ValueError |
| Adc.Readings | core/sensors/ph.py:20 | the first n readings of a channel: n of them, the i-th being the channel's i-th value |
| Adc.Collect | core/sensors/ph.py:20 | the list comprehension over `range(n)` yields exactly max(n, 0) readings, in the order delivered |
| Numeric.MeanBounds | calibrate.py:49 | the mean of a non-empty list lies between any lower and upper bound of its elements |
| Numeric.ConstantWindow | calibrate.py:49-50 | a window of identical voltages has that voltage as mean and population variance 0 |
| Numeric.VarianceNonNegative | calibrate.py:50 | the population variance is never negative |
| Numeric.StdevBelowTolerance | calibrate.py:55 | for a non-negative standard deviation, `stdev < tol` holds exactly when tol > 0 and variance < tol * tol |
| Numeric.Round2 | sampler/sensors/turbidity.py:21 | `round(x, 2)` is within half a hundredth of x and is a whole number of hundredths |
| Numeric.Round2Monotone | sampler/sensors/turbidity.py:21 | rounding to hundredths never reverses the order of two values |
| Numeric.Round2OfHundredths | core/sensors/tds.py:25 | a value that is already a whole number of hundredths is left unchanged by rounding |
| Sorting.Insert | core/sensors/ph.py:24 | inserting into a sorted list keeps it sorted and adds exactly that element |
| Sorting.Sort | core/sensors/ph.py:24 | `list.sort` yields a sorted permutation of its input |
| Sorting.SortedHeadIsLeast | core/sensors/ph.py:24 | the first element of a sorted list is at most every element in it |
| Sorting.SameHead | core/sensors/ph.py:24 | two sorted lists with the same elements start with the same value |
| Sorting.SortedUnique | core/sensors/ph.py:24 | two sorted lists holding the same multiset of values are equal, so the sorted order is unique |
| Sorting.SortPermutationInvariant | core/sensors/ph.py:24 | sorting two reorderings of the same readings gives the same list |
| Sorting.SortWithin | core/sensors/ph.py:24 | sorting keeps every value within bounds that held for the input |
| Sorting.SliceBound | core/sensors/ph.py:25 | a Python slice index: non-negative indices count from the front, negative ones from the end, and both are clamped to the length |
| Sorting.PySlice | core/sensors/ph.py:25 | `s[start:stop]` keeps the elements between the two clamped bounds, and is empty when they cross |
| Sorting.TrimMiddle | core/sensors/tds.py:14 | for 0 < k and 2k < length, `s[k:-k]` is the list without its k first and k last elements |
| Sorting.TrimZeroIsEmpty | core/sensors/ph.py:25 | `s[0:-0]` is empty whatever s is |
| Sorting.PySliceWithin | core/sensors/ph.py:25 | every slice keeps the bounds its list satisfied |
| Sorting.SumInsert | core/sensors/ph.py:24-26 | inserting x into a sorted list adds x to its sum |
| Sorting.SumSort | core/sensors/ph.py:24-26 | sorting does not change the sum of the readings |
| Sorting.MeanSort | core/sensors/ph.py:24-26 | sorting does not change the mean of the readings |
| Stability.Push | calibrate.py:42-46 | appending to a deque bounded to `cap` grows it by one until it holds `cap` values, then keeps it at `cap` |
| Stability.WindowIsPushed | calibrate.py:42-46 | the deque never holds more than `cap` values; after k+1 appends it holds the last min(k+1, cap) voltages, so the oldest is evicted first |
| Stability.SearchFrom | calibration/calibration_session.py:75-94 | the sampling loop for any acceptance test stops after a position in the input, or finds nothing |
| Stability.SearchIsFirst | calibration/calibration_session.py:79-88 | the loop stops at the first window that passes the test; no earlier window passes, and with no stop no window passes |
| Stability.FirstStableFrom | calibrate.py:44-56 | the number of voltages read from position k until a window is accepted, if one is |
| Stability.FirstStableIsSearch | calibrate.py:48-56 | the tool's search is the general search with the full-window, stdev-below-tolerance test |
| Stability.FirstStableIsFirst | calibrate.py:48-56 | sampling returns only when the window is full and its variance is below tol squared; no earlier window was accepted, and with no stop none was |
| Stability.Settle | calibrate.py:40-61 | what sampling returns, the accepted mean and the voltages read, never reads past the input |
| Stability.SettleStep | calibrate.py:44-56 | if the window after voltage i is accepted, sampling returns its mean after i+1 voltages; if not, the search goes on from i+1 |
| Stability.SettleExhausted | calibrate.py:44-61 | with the input used up and nothing accepted, sampling yields no mean and every voltage read |
| Stability.SettleWith | calibration/calibration_session.py:72-94 | sampling with any acceptance test that accepts only full windows never reads past the input |
| Stability.SettleIsSettleWith | calibration/calibration_session.py:79-88 | the tool's acceptance test accepts only full windows, and the tool's sampling is general sampling with that test |
| Stability.SettleWithStep | calibration/calibration_session.py:79-94 | one step of general sampling: accept the window after voltage i and return its mean, or go on from i+1 |
| Stability.SettleWithExhausted | calibration/calibration_session.py:75-94 | general sampling with its input used up yields no mean |
| Stability.AcceptedWindowIsFull | calibrate.py:48-55 | an accepted window is full: it is exactly the last `cap` voltages read, cap > 0, and its variance is below tol squared |
| Stability.AcceptedMeanWithinWindow | calibrate.py:49-56 | the returned mean lies between the smallest and the largest voltage of the accepted window |
| Stability.NonPositiveToleranceNeverAccepts | calibrate.py:55 | with tolerance 0 or below no window is ever accepted, because the comparison is strict |
| Stability.ConstantInputAcceptedWhenFull | calibrate.py:48-56 | with a positive tolerance, identical voltages are accepted as soon as the window fills, and the value returned is that voltage |
| Calibrate.Ask | calibrate.py:29-38 | the cast value when the cast succeeded and `valid` accepts it, otherwise the default; a valid default makes every result valid |
| Calibrate.SampleUntilStable | calibrate.py:40-61 | the deque loop returns the first accepted window's mean and the count read, as `Stability.Settle` specifies |
| Calibrate.Put | calibrate.py:82 | dict assignment: the key maps to the new list and the key set gains it; a new key goes to the end of the insertion order, an existing one keeps its place |
| Calibrate.PutKeepsOthers | calibrate.py:82 | assignment keeps the dict well formed (each key once in the order) and leaves every other key's list unchanged |
| Calibrate.PutTwice | calibrate.py:82-95 | resetting a standard's list and then filling it is the same as assigning the filled list once, which discards the earlier samples |
| Calibrate.Standard | calibrate.py:75-80 | the entered standard is at least 0.0, and it is the typed value when that parsed and was non-negative (default 0.0) |
| Calibrate.StableMeans | calibrate.py:84-95 | `count` successive stabilised means, each read after the previous one stopped: exactly `count` values, within the input |
| Calibrate.StableMeansStep | calibrate.py:84-95 | one more mean is the next stable mean followed by the rest read from where it stopped |
| Calibrate.CollectOne | calibrate.py:75-97 | one standard's list becomes its `num_samples` stable means, and it fails exactly when the voltages run out first |
| Calibrate.SamplingStep | calibrate.py:84-95 | the inner loop's state after j means, advanced by one more mean |
| Calibrate.SamplingStops | calibrate.py:84-95 | a mean that never settles makes the whole standard's collection fail |
| Calibrate.SampleStandard | calibrate.py:84-97 | the inner loop returns exactly the `num_samples` stable means read in order, as `StableMeans` specifies |
| Calibrate.CollectStandard | calibrate.py:75-97 | the outer loop body resets the standard's list and then fills it, as `CollectOne` specifies |
| Calibrate.CollectSamples | calibrate.py:70-103 | the nested loops build the dict `CollectFrom` specifies from the empty dict |
| Calibrate.CollectedShape | calibrate.py:70-103 | the collected dict holds each standard once, every list holds exactly `num_samples` values, and every key is non-negative |
| Calibrate.CollectedKeys | calibrate.py:72-82 | the collected keys are exactly the standards entered |
| Calibrate.SamplesToArrays | calibrate.py:105-113 | x is every list's voltages in key insertion order then list order; y is each standard repeated once per voltage |
| Calibrate.ArraysPaired | calibrate.py:109-113 | x and y have equal length, and every x[i] comes from the list of the standard y[i] |
| Calibrate.ArraysLength | calibrate.py:105-113 | with n values per standard, the arrays hold n entries per distinct standard |
| Calibrate.SensorKey | calibrate.py:165 | `lower().replace(' ', '_')` on an ASCII name keeps its length and leaves no space or upper-case letter |
| Calibrate.SensorKeyIdempotent | calibrate.py:165 | normalising a sensor key twice gives the same key |
| Calibrate.ApplyCalibration | calibrate.py:164-181 | this sensor's key maps to {coeffs, degree, log}; every other loaded entry is kept; an unreadable file counts as an empty mapping |
| Calibrate.SensorKeys | calibrate.py:165-188 | the three sensors are stored under `turbidity`, `total_dissolved_solids` and `ph` |
| Calibrate.ReadSettings | calibrate.py:197-206 | whatever is typed, sensor index 0 to 2, channel 0 to 3 and positive counts; each valid answer is kept, and each invalid or unparsable one gives its default (sensor 0, channel 0, 3 standards, 10 samples) |
| Calibrate.ReadDegree | calibrate.py:218 | the degree is at least 0, and it is the typed one when that is valid |
| Calibrate.MenuOption | calibrate.py:238-239 | the option is one of a, l or e, and it is the answer when the answer is one of them |
| Calibrate.Complete | calibrate.py:242-250 | samples are logged iff the option is a or l, coefficients are written iff it is a, and `log` is "" unless logged |
| Calibrate.AppliedImpliesLogged | calibrate.py:244-250 | coefficients are never written without the samples being logged, and they record that log's path |
| Calibrate.UnrecognisedAnswerApplies | calibrate.py:238-250 | any answer other than l or e applies the calibration |
| Session.Units | calibration/calibration_session.py:21 | pH gives "pH", Turbidity gives "NTU", TDS gives "ppm", and exactly every other name gives "Unknown" |
| Session.Channel | calibration/calibration_session.py:22 | pH gets P0, TDS gets P1 and Turbidity gets P2; every other name gets None |
| Session.ChannelIffUnits | calibration/calibration_session.py:21-22 | a sensor has a channel exactly when its units are known, and distinct sensors get distinct channels |
| Session.Progress | calibration/calibration_session.py:79-92 | a full window that was not accepted shows "Stabilizing..."; a window that is not full shows exactly "Collecting... count/size" |
| Session.CalibrationSession.constructor | calibration/calibration_session.py:14-46 | the session starts with the defaults given, the mapped units and channel, empty lists, standard 0 and status "Waiting..." |
| Session.CalibrationSession.EnterStandard | calibration/calibration_session.py:28-31 | typing a standard changes only the standard field |
| Session.CalibrationSession.SampleUntilStable | calibration/calibration_session.py:72-94 | the same search as the tool with the session's window and tolerance; the status shows "Stable" on success, and otherwise what the last sample left; the lists are untouched |
| Session.CalibrationSession.StartSampling | calibration/calibration_session.py:72-99 | one stable mean is appended to `samples` and the entered standard to `standards`, so the two lists stay equal in length and pair index by index; the status line is left at "Stable" after a success, otherwise at what the last sample showed |
| Session.Stabilize | calibration/calibration_session.py:72-94 | the deque loop with its status line returns general sampling's result; the last status is "Stable", "Stabilizing..." or "Collecting... k/N" as the last window dictates |
| Session.DefaultsSettleOnConstant | calibration/calibration_session.py:14-94 | with the session defaults (window 10, tolerance 0.1), constant voltages settle after exactly ten samples on that constant |
| Upload.FirstSuccessFrom | sampler.py:43-48 | the first succeeding attempt from k below n; none before it succeeds, and when there is none, no attempt succeeds |
| Upload.AttemptsStep | sampler.py:49-56 | a failed attempt that is not the last leaves one attempt fewer to go |
| Upload.ScheduleLength | sampler.py:43-56 | the upload makes one wait fewer than attempts |
| Upload.SchedulePostAt | sampler.py:43-48 | the i-th POST made is attempt i, with its own outcome |
| Upload.ScheduleSleepAt | sampler.py:54-56 | every attempt except the last is followed by a wait of base times 2 to the power of the attempt number |
| Upload.ScheduleShape | sampler.py:43-56 | `Schedule`, the steps of one upload: a attempts (up to the first success, or all), POST k at position 2k, and a wait of base·2^k after each attempt but the last |
| Upload.AttemptsBounded | sampler.py:43-53 | at most `max_retries` attempts, none when it is 0 or less, stopping right after the first success, with every earlier attempt failed |
| Upload.SleepsBetweenAttempts | sampler.py:51-56 | after the last failure there is no wait, so the upload waits at most `max_retries - 1` times |
| Upload.DefaultBackoffs | sampler/sampler.py:35-42 | with the defaults and every POST failing, the waits are 2, 4, 8 and 16 s and the 32 s wait is never reached |
| Upload.SentIsSchedule | sampler.py:43-56 | with a base backoff that is not negative no wait raises, and the synchronous upload is the whole schedule |
| Upload.NegativeBackoffRaises | sampler.py:49-56 | with a negative base, `time.sleep` raises ValueError out of the handler exactly when the first POST fails and another attempt remains, right after that POST; otherwise the upload is the schedule |
| Upload.SendSample | sampler.py:35-56 | the for-loop with early returns performs `SentFrom`: the upload schedule up to a negative wait, which raises ValueError; with the default base of 2 s it is the whole schedule and nothing escapes |
| Upload.SendSampleAsync | sampler/sampler.py:17-42 | the while-loop over `retries` performs the same schedule as the synchronous sampler's upload, and never raises |
| SampleLog.Fields | sampler/sampler.py:70-78 | the sample dict's keys are exactly the seven `fieldnames` of `log_sample`, with uptime and pH carried over |
| SampleLog.SevenDistinctFields | sampler/sampler.py:46 | the seven column names are distinct, so a row has exactly seven keys |
| SampleLog.DistinctElements | sampler/sampler.py:46 | a list without repeats has as many distinct elements as entries |
| SampleLog.CycleTraceInOrder | sampler.py:89-98 | when every cycle records three events, the trace of n cycles is the cycles one after the other, cycle i against the deadline first + interval·(i+1) |
| SampleLog.Delay | sampler/sampler.py:88 | the wait is max(0, deadline - now): never negative, and 0 once the deadline has passed |
| SyncSampler.Row | sampler.py:68-81 | the row's uptime is counted from the start time |
| SyncSampler.CyclesInOrder | sampler.py:65-92 | cycle i logs its row, then sends that same row with the retry schedule, then sleeps until the first deadline plus 900 (i+1) s |
| SyncSampler.Sampler.Setup | sampler.py:58-63 | the start time and the first deadline are the clock readings, and nothing has happened yet |
| SyncSampler.Sampler.Loop | sampler.py:65-92 | log, then send, then the deadline advances by exactly 900 s and the sleep is max(0, deadline - now) |
| SyncSampler.Sampler.Run | sampler.py:94-98 | after n loops the deadline is the first one plus 900 n, and the events are the n cycles in order |
| AsyncSampler.Row | sampler/sampler.py:64-78 | the row's uptime is counted from the start time, and its four sensor values are None |
| AsyncSampler.CyclesInOrder | sampler/sampler.py:57-88 | cycle i starts the upload of its row, logs that row, then sleeps until the first deadline plus 900 (i+1) s |
| AsyncSampler.SamplerLoop | sampler/sampler.py:57-88 | after n cycles the deadline is the first one plus 900 n, and the events are the n cycles in order |
| PhSensor.New | core/sensors/ph.py:5-12 | channels 0 to 3 give a sensor on that input, and any other channel raises ValueError |
| PhSensor.Average | core/sensors/ph.py:26 | `sum / len` raises ZeroDivisionError exactly on an empty list, and otherwise is the mean of the list |
| PhSensor.VoltageToPh | core/sensors/ph.py:30 | the linear pH formula converts back to the voltage it came from |
| PhSensor.Read | core/sensors/ph.py:14-31 | `read` collects `samples` readings, raises ValueError from the wait for a negative count, then sorts, trims, averages and converts, as `ReadingsToPh` specifies |
| PhSensor.ReadTrimsBothEnds | core/sensors/ph.py:24-26 | for 0 < trim and 2·trim < samples, the pH is computed from the mean of the sorted readings without the `trim` lowest and `trim` highest |
| PhSensor.ReadAveragesAll | core/sensors/ph.py:25 | when 2·trim ≥ samples, all readings are averaged |
| PhSensor.ReadNoSamplesRaises | core/sensors/ph.py:20-26 | with no readings, `read` raises: ValueError from `time.sleep` for a negative count, ZeroDivisionError from the average for a count of 0 |
| PhSensor.ReadValueErrorIffNegative | core/sensors/ph.py:20-21 | `read` raises ValueError exactly when the sample count is negative |
| PhSensor.ReadOrderIndependent | core/sensors/ph.py:20-26 | the pH does not depend on the order the readings arrived in |
| PhSensor.AverageWithinReadings | core/sensors/ph.py:24-26 | the averaged voltage lies between the lowest and the highest reading |
| PhSensor.PhDecreasing | core/sensors/ph.py:30 | a higher voltage gives a strictly lower pH |
| PhSensor.TrimZeroRaises | core/sensors/ph.py:25-26 | as written, trim = 0 raises ZeroDivisionError for every non-empty batch |
| PhSensor.TrimIntended | core/sensors/ph.py:25 | the intended slice drops `trim` readings at each end and keeps the remaining ones, at least one of them |
| PhSensor.TrimIntendedAgrees | core/sensors/ph.py:25 | for every positive trim the intended slice is the written one |
| PhSensor.TrimIntendedZeroKeepsAll | core/sensors/ph.py:25-26 | with the intended slice, trim = 0 averages every reading |
| CoreTds.TrimKeepsMiddle | core/sensors/tds.py:13-15 | `samples[2:-2]` of the 30 sorted readings is the middle 26 |
| CoreTds.Compensate | core/sensors/tds.py:18-19 | division by 1 + 0.02 (T - 25) raises ZeroDivisionError exactly at T = -25; otherwise the result times the coefficient is the average |
| CoreTds.CompensationNeutralAt25 | core/sensors/tds.py:18 | at 25 degrees the coefficient is 1 and the voltage is unchanged |
| CoreTds.CubicSign | core/sensors/tds.py:22-24 | the cubic factors as c times a quadratic with no real root, so it has the sign of c |
| CoreTds.CubicPpm | core/sensors/tds.py:22-24 | the cubic gives 0 ppm at 0 V, a positive value for a positive compensated voltage and a negative one for a negative voltage |
| CoreTds.Read | core/sensors/tds.py:10-25 | `read` takes 30 readings, trims, averages, compensates, applies the cubic and rounds, as `ReadingsToTds` specifies |
| CoreTds.ReadOrderIndependent | core/sensors/tds.py:12-25 | the result does not depend on the order of the 30 readings |
| CoreTds.TrimmedMeanWithinReadings | core/sensors/tds.py:12-15 | the averaged voltage lies between the lowest and the highest reading |
| CoreTds.ZeroVoltsZeroPpm | core/sensors/tds.py:12-25 | 30 readings of 0 V give 0 ppm at any temperature except -25 |
| CoreTds.MinusTwentyFiveRaises | core/sensors/tds.py:18-19 | at -25 degrees `read` raises ZeroDivisionError |
| SamplerTds.TdsSensor.constructor | sampler/sensors/tds.py:12-13 | the input and the temperature are stored as given |
| SamplerTds.VoltageToPpm | sampler/sensors/tds.py:32 | the linear scale is 100 ppm per compensated volt: dividing by 100 gives the voltage back |
| SamplerTds.TdsSensor.Read | sampler/sensors/tds.py:16-40 | `read` takes 30 readings, trims, averages, compensates and scales to ppm, as `ReadingsToTds` specifies |
| SamplerTds.TdsSensor.SetTemperature | sampler/sensors/tds.py:43-47 | a temperature from 0 to 55 inclusive is stored; any other raises ValueError and the setting is kept |
| SamplerTds.TdsSensor.GetTemperature | sampler/sensors/tds.py:49-51 | returns the current setting |
| SamplerTds.TdsSensor.SetTemperatures | sampler/sensors/tds.py:43-51 | after a series of `set_temperature` calls the setting is the last accepted value |
| SamplerTds.LastAcceptedStep | sampler/sensors/tds.py:43-47 | one more call either replaces the setting, when in range, or leaves it |
| SamplerTds.LastInRange | sampler/sensors/tds.py:43-47 | the position of an in-range temperature among those set |
| SamplerTds.LastInRangeIsLast | sampler/sensors/tds.py:43-47 | no temperature after that position is in range, and with none found no temperature is |
| SamplerTds.LastAcceptedIsLastInRange | sampler/sensors/tds.py:13-51 | `get_temperature` gives the last in-range value set, or the constructor's value when none was |
| SamplerTds.InRangeNeverRaises | sampler/sensors/tds.py:27-28 | once the setting is in range, `read` never divides by zero |
| SamplerTds.ReadAt25 | sampler/sensors/tds.py:27-32 | at 25 degrees the result is 100 ppm per averaged volt, to the nearest hundredth |
| SamplerTds.ReadOrderIndependent | sampler/sensors/tds.py:17-22 | the result does not depend on the order of the 30 readings |
| SamplerTds.UncheckedConstructorTemperature | sampler/sensors/tds.py:13-28 | the constructor's temperature is not checked, so a sensor built at -25 raises ZeroDivisionError on every read |
| SamplerTds.New | sampler/sensors/tds.py:5-13 | channels 0 to 3 give a fresh sensor with that input and temperature; any other channel raises ValueError |
| Turbidity.New | sampler/sensors/turbidity.py:5-12 | channels 0 to 3 give a sensor on that input; any other channel raises ValueError |
| Turbidity.Read | sampler/sensors/turbidity.py:14-21 | one reading gives 200 NTU per volt, within half a hundredth, as a whole number of hundredths |
| Turbidity.ReadScaleEnds | sampler/sensors/turbidity.py:20-21 | 0 V reads as 0 NTU and 5 V as 1000 NTU |
| Turbidity.ReadMonotone | sampler/sensors/turbidity.py:20-21 | a higher voltage never reads as a lower turbidity |
| OneWire.TrimStart | core/sensors/temperature.py:26 | `lstrip` returns a suffix of the line that does not start with whitespace |
| OneWire.TrimStartStops | core/sensors/temperature.py:26 | `lstrip` stops at the first character that is not whitespace |
| OneWire.TrimEnd | core/sensors/temperature.py:26 | `rstrip` returns a prefix of the line that does not end with whitespace |
| OneWire.Strip | core/sensors/temperature.py:26 | `strip` is no longer than the line and neither starts nor ends with whitespace |
| OneWire.TrimEndSpaces | core/sensors/temperature.py:26 | `rstrip` removes exactly the trailing whitespace |
| OneWire.ReadyIff | core/sensors/temperature.py:26 | `Ready`: the probe is ready exactly when the stripped first line has at least three characters and ends in "YES" |
| OneWire.ReadyWhenEndsInYes | core/sensors/temperature.py:26 | any first line ending in "YES" and then whitespace is ready |
| OneWire.FindFrom | core/sensors/temperature.py:29 | `find` returns -1 or a position where the pattern fits |
| OneWire.FindFromIsFirst | core/sensors/temperature.py:29 | the search from i returns the first occurrence at or after i, and -1 exactly when there is none |
| OneWire.FindIsFirst | core/sensors/temperature.py:29 | `find('t=')` gives the first occurrence, and -1 exactly when there is none |
| OneWire.NatToStringValue | core/sensors/temperature.py:32 | reading the decimal digits back gives the number |
| OneWire.ParseInt | core/sensors/temperature.py:32 | blank text raises ValueError (None); a parsed number ends in a digit, and a negative one starts with a minus sign |
| OneWire.ParseIntOfIntToString | core/sensors/temperature.py:32 | `float` of an integer's decimal form gives the integer back |
| OneWire.ParseIntRoundTrip | core/sensors/temperature.py:32 | `float` of an integer's decimal form followed by a line break gives the integer back |
| OneWire.ParseTemperature | core/sensors/temperature.py:29-32 | the line has no temperature marker exactly when `find('t=')` gives -1 |
| OneWire.ParseTemperatureRoundTrip | core/sensors/temperature.py:29-32 | a second line with "t=" followed by a reading in thousandths gives that reading divided by 1000 |
| OneWire.FindAfterMarkerFreePrefix | core/sensors/temperature.py:29 | the first "t=" after a prefix without one is the one right after that prefix |
| OneWire.FirstReadyFrom | core/sensors/temperature.py:25-28 | the polling stops at a read within the input, or raises IndexError |
| OneWire.FirstReadyIsFirst | core/sensors/temperature.py:25-28 | polling returns a read whose first line is ready, and every read before it had a first line that was not |
| OneWire.FirstReadyNone | core/sensors/temperature.py:25-28 | when the reads run out, none of them was ready |
| OneWire.ReadyAtOnce | core/sensors/temperature.py:25-26 | a first read that is ready ends the polling at once |
| OneWire.AwaitReady | core/sensors/temperature.py:25-28 | the polling loop stops at the read `FirstReadyFrom` specifies |
| OneWire.ReadThen | core/sensors/temperature.py:24-34 | the body both drivers' `read` share: the polling loop stops at the read `FirstReadyFrom` specifies, and the lines of that read are interpreted, as `PollThen` specifies |
| CoreTemperature.NameIsReadingKey | core/sensors/temperature.py:16-18 | the `name` property, "temperature", is the key of the temperature reading in the web app's shared state and one of the sampler's CSV columns |
| CoreTemperature.Read | core/sensors/temperature.py:24-34 | poll until ready, then parse the second line of that same read, as `ReadingOf` specifies |
| CoreTemperature.ReadingFromReadyRead | core/sensors/temperature.py:24-33 | a value is returned only from a ready read after reads that were all not ready, and it is the temperature on that same read's second line |
| CoreTemperature.NoMarkerRaises | core/sensors/temperature.py:29-34 | a second line with no "t=" raises RuntimeError |
| CoreTemperature.ReadyReadOf | core/sensors/temperature.py:24-33 | a ready first read with a temperature on its second line reads as that temperature |
| CoreTemperature.InterpretCelsius | core/sensors/temperature.py:29-33 | a second line carrying a temperature gives that temperature |
| SamplerTemperature.CelsiusToFahrenheit | sampler/sensors/temperature.py:29 | F = C·9/5 + 32 converts back to the Celsius value it came from |
| SamplerTemperature.FahrenheitInvertible | sampler/sensors/temperature.py:29 | F = C·9/5 + 32 converts back to C; 0 °C is 32 °F and 100 °C is 212 °F |
| SamplerTemperature.Read | sampler/sensors/temperature.py:20-30 | poll until ready, then parse the second line of that read into (C, F), as `ReadingOf` specifies |
| SamplerTemperature.AgreesWithCoreDriver | sampler/sensors/temperature.py:20-30 | where the core driver returns C this one returns (C, F); where the core driver raises RuntimeError this one returns None; otherwise both do the same |
| SamplerTemperature.ReadyReadOf | sampler/sensors/temperature.py:20-30 | a ready first read with a temperature on its second line reads as the Celsius and Fahrenheit pair |
| AppState.Initial | app/state.py:4-12 | the initial state has exactly the seven keys, `sensor_ready` False and every other key None |
| AppState.Update | app/state.py:15-18 | after the update every key of d maps to d's value, every other key keeps its value, and keys outside the initial schema are added |
| AppState.UpdateEmpty | app/state.py:15-18 | updating with an empty dict changes nothing |
| AppState.UpdateIdempotent | app/state.py:15-18 | applying the same update twice equals applying it once |
| AppState.UpdateTwice | app/state.py:15-18 | two successive updates are one update with their merge, the later one winning |
| AppState.UpdateKeepsInitialKeys | app/state.py:15-18 | updates never remove a key, so the initial keys stay present |
| AppState.State.constructor | app/state.py:4-12 | the shared dict starts as the initial state |
| AppState.State.UpdateState | app/state.py:15-18 | the shared dict becomes the update of its old value with the new data |
| AppState.State.GetState | app/state.py:20-23 | returns a value equal to the current state without changing it; the value is a copy that the caller cannot change the state through |

## Left out

- Hardware access. The I2C/ADS1115 setup (`initialize_adc`, the `AnalogIn` objects), `.voltage` reads, and the 1-Wire `modprobe` and sysfs reads are all left out. Readings are parameters of the model.
- The device-folder lookup in both temperature drivers' constructors, which raises RuntimeError when no probe is found. It is a filesystem glob.
- The reader of `core/sensors/tds.py` (`ADSReader`) is not part of this model. A reading of that driver is the parameter `voltage(i)`.
- Clocks and sleeps. `monotonic`, `datetime.now` and the time spent in `time.sleep` are left out. Clock readings are integer parameters, and waits are recorded as `Sleep` steps or `Slept` events. The ValueError that `time.sleep` raises on a negative length is modelled in `PhSensor.Read` and `Upload.SendSample`.
- The network. `requests.post` and `aiohttp` are left out. A POST is a success or a raised exception, given by `outcome(k)`; `raise_for_status` and timeouts are folded into that outcome.
- Concurrency. `asyncio.create_task` in the asynchronous sampler is left out: the model records the `Spawned` event but not how the upload task interleaves with later cycles. The `Lock` in `app/state.py` is also left out; each call is one atomic step.
- Floating point. Values are exact reals, and numpy `mean`/`std` are exact population mean and variance.
- Numeric.Round2: rounds ties upward. Python's `round` on doubles rounds the exact binary value, so ties can go the other way.
- OneWire.ParseInt: accepts only the integer form the probe writes (optional sign, digits, surrounding whitespace). Python's `float` also accepts decimals, exponents, `inf` and `nan`.
- Calibrate.SensorKey: lower-cases ASCII letters only. Python's `lower()` also maps other Unicode letters.
- Infinite loops. `sample_until_stable` in both calibration programs, the 1-Wire polling loop and both sampler main loops run over finite inputs here. They report running out (None, `OutOfReads`) where the source would go on waiting.
- SyncSampler.Sampler.Loop, SyncSampler.Sampler.Run: the sensor read of the synchronous sampler's `loop` (sampler.py:71) is modelled as returning four values (`Tick.readings`). As written it calls `sensors.read_all()`, but `Sensors` defines only `read_all_sensors` (sensors.py:47), and that one calls `read_turbidity()` and the others without `self.`. So the first `loop` raises AttributeError before `log_sample`, `main` catches it (sampler.py:101-104), and the sampler stops having logged and sent nothing. The model describes the cycle the loop evidently intends.
- Calibrate.SampleUntilStable, Session.CalibrationSession.SampleUntilStable: return None when the finite input runs out, which the source never does. In the session, `start_sampling` then appends nothing.
- The source of the session's voltages, `np.random.uniform(1.95, 2.05)`. The session reads the same voltage parameter as the tool.
- Session.CalibrationSession.SampleUntilStable, Session.CalibrationSession.StartSampling: the session's `sampling_rate` is not modelled. A negative rate makes `time.sleep(self.sampling_rate)` (calibration/calibration_session.py:94) raise ValueError after the first sample that does not end the search. `start_sampling` then appends nothing and the error reaches the button handler. The model returns the search result whatever the rate. The tool always passes 0.01 (calibrate.py:93), so its sleep never raises.
- Fitting, plotting and display: `np.polyfit` in `fit`, R² and MSE, `plot_fit`, `update_plot`, the widgets, the printed mean/stdev text and the ANSI `Style` codes. The session's status line is the `Status` value, not its text.
- Prompts. `input()` is replaced by the value the cast produced from the answer.
- File handling. The CSV writing in `log_sample` and `log_samples`, and the JSON read and write in `apply_calibration`, are left out. Only the in-memory merge is modelled, with an unreadable file given as None.
- Python's `dict` is modelled for the calibration samples by an explicit insertion order. Elsewhere a `map`, whose key order is not modelled.
- In-place `list.sort`. It is modelled as the function `Sorting.Sort` on sequences, which is proved sorted and a permutation, rather than as an in-place array algorithm.
- A negative `window_size`, which makes Python's `deque` raise. Window sizes are natural numbers here.
- A window size of 0. numpy gives nan for an empty window and nan is never below the tolerance, so the model never accepts it.

## Findings

| source | as written | input that shows it | evidently intended | confidence | as-written member | corrected member |
|---|---|---|---|---|---|---|
| core/sensors/ph.py:25 | `voltages[trim:-trim]` for `trim * 2 < samples` | `read(samples=10, trim=0)`: `voltages[0:-0]` is empty, and line 26 divides by zero | drop `trim` readings at each end, `voltages[trim:len(voltages) - trim]`, so that `trim = 0` averages all readings | medium, not executed | PhSensor.TrimZeroRaises | PhSensor.TrimIntended |

`PhSensor.Read` keeps the written slice, since the default `trim = 2` never reaches this case. `PhSensor.TrimIntendedAgrees` proves that the intended slice equals the written one for every positive `trim`. `PhSensor.TrimIntendedZeroKeepsAll` proves that it averages all readings for `trim = 0`.
