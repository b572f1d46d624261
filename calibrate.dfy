/**
 * The command-line calibration tool: prompts with defaults, stabilised
 * sampling, per-standard sample collection, flattening into x/y arrays,
 * the read-merge-write of one sensor's calibration record and the final
 * apply/log menu. Prompts are modelled by the value the cast produced from
 * the typed answer (None when the cast raised ValueError); the ADC is a
 * finite sequence of voltages.
 */
module Calibrate {
  import opened Wrappers
  import opened Numeric
  import opened Stability

  /**
   * `ask`: the cast answer when the cast succeeded and `valid` accepts it,
   * otherwise the default.
   */
  function Ask<T>(cast: Option<T>, default: T, valid: T -> bool): (r: T)
    ensures cast.Some? && valid(cast.value) ==> r == cast.value
    ensures !(cast.Some? && valid(cast.value)) ==> r == default
    ensures valid(default) ==> valid(r)
  {
    if cast.Some? && valid(cast.value) then cast.value else default
  }

  /**
   * `sample_until_stable`: append voltages to a deque bounded to
   * `windowSize` until a full window has a standard deviation below
   * `tolerance`; return that window's mean and how many voltages were read.
   * The source loops forever when no window is ever stable; here the input
   * is finite and None is returned once it is used up.
   */
  method SampleUntilStable(voltages: seq<real>, windowSize: nat := 200, tolerance: real := 0.003)
    returns (mean: Option<real>, consumed: nat)
    ensures (mean, consumed) == Settle(voltages, windowSize, tolerance)
  {
    var subSamples: seq<real> := [];
    var i := 0;
    while i < |voltages|
      invariant 0 <= i <= |voltages|
      invariant subSamples == Window(voltages, i, windowSize)
      invariant FirstStable(voltages, windowSize, tolerance) == FirstStableFrom(voltages, i, windowSize, tolerance)
    {
      WindowIsPushed(voltages, i, windowSize);
      SettleStep(voltages, i, windowSize, tolerance);
      subSamples := Push(subSamples, voltages[i], windowSize);
      i := i + 1;
      if |subSamples| == windowSize && Accepts(subSamples, windowSize, tolerance) {
        return Some(Mean(subSamples)), i;
      }
    }
    SettleExhausted(voltages, windowSize, tolerance);
    return None, |voltages|;
  }

  /* ---------------------------------------------------------------------
   * collect_samples
   * ------------------------------------------------------------------- */

  /** The window and tolerance `collect_samples` passes to `sample_until_stable`. */
  const CollectWindow: nat := 200
  const CollectTolerance: real := 0.03

  /**
   * A Python dict from standard to its list of voltages: `order` is the
   * insertion order of the keys, `lists` their values.
   */
  datatype Samples = Samples(order: seq<real>, lists: map<real, seq<real>>)

  const NoSamples := Samples([], map[])

  ghost predicate Wf(d: Samples)
  {
    && (forall i, j :: 0 <= i < j < |d.order| ==> d.order[i] != d.order[j])
    && (forall k :: k in d.lists <==> k in d.order)
    && (forall i :: 0 <= i < |d.order| ==> d.order[i] in d.lists)
  }

  /**
   * `samples[k] = v`: a new key goes to the end of the insertion order;
   * an existing key keeps its place and its old list is discarded.
   */
  function Put(d: Samples, k: real, v: seq<real>): (r: Samples)
    ensures k in r.lists && r.lists[k] == v
    ensures r.lists.Keys == d.lists.Keys + {k}
    ensures k in d.lists ==> r.order == d.order
    ensures k !in d.lists ==> r.order == d.order + [k]
  {
    Samples(if k in d.lists then d.order else d.order + [k], d.lists[k := v])
  }

  /** Assigning a key keeps the dict well formed and leaves every other key's list alone. */
  lemma PutKeepsOthers(d: Samples, k: real, v: seq<real>)
    requires Wf(d)
    ensures Wf(Put(d, k, v))
    ensures forall k' :: k' != k && k' in d.lists ==> Put(d, k, v).lists[k'] == d.lists[k']
  {
  }

  /** Resetting a key and then assigning it is the same as assigning it once. */
  lemma PutTwice(d: Samples, k: real, v: seq<real>, w: seq<real>)
    ensures Put(Put(d, k, v), k, w) == Put(d, k, w)
  {
  }

  /** The standard entered at a prompt: a float, at least 0.0, default 0.0. */
  function Standard(answer: Option<real>): (s: real)
    ensures s >= 0.0
    ensures answer.Some? && answer.value >= 0.0 ==> s == answer.value
  {
    Ask(answer, 0.0, x => x >= 0.0)
  }

  /**
   * `count` successive stabilised means read from `vs`, with how many
   * voltages they used up; None when `vs` runs out first.
   */
  function StableMeans(vs: seq<real>, count: nat): (r: Option<(seq<real>, nat)>)
    ensures r.Some? ==> |r.value.0| == count && r.value.1 <= |vs|
    decreases count
  {
    if count == 0 then Some(([], 0))
    else
      match Settle(vs, CollectWindow, CollectTolerance)
      case (None, _) => None
      case (Some(m), k) =>
        match StableMeans(vs[k..], count - 1)
        case None => None
        case Some((ms, used)) => Some(([m] + ms, k + used))
  }

  function Prefixed(ms: seq<real>, used: nat, rest: Option<(seq<real>, nat)>): Option<(seq<real>, nat)>
  {
    match rest
    case None => None
    case Some((more, u)) => Some((ms + more, used + u))
  }

  /** One more stabilised mean: the first one read, then the rest from where it stopped. */
  lemma StableMeansStep(vs: seq<real>, pos: nat, count: nat, m: real, k: nat)
    requires pos <= |vs| && Settle(vs[pos..], CollectWindow, CollectTolerance) == (Some(m), k)
    ensures pos + k <= |vs|
    ensures StableMeans(vs[pos..], count + 1) == Prefixed([m], k, StableMeans(vs[pos + k..], count))
  {
    assert vs[pos..][k..] == vs[pos + k..];
  }

  lemma PrefixedNothing(rest: Option<(seq<real>, nat)>)
    ensures Prefixed([], 0, rest) == rest
  {
    if rest.Some? {
      assert [] + rest.value.0 == rest.value.0;
    }
  }

  lemma PrefixedTwice(a: seq<real>, x: nat, b: seq<real>, y: nat, rest: Option<(seq<real>, nat)>)
    ensures Prefixed(a, x, Prefixed(b, y, rest)) == Prefixed(a + b, x + y, rest)
  {
    if rest.Some? {
      assert a + (b + rest.value.0) == (a + b) + rest.value.0;
    }
  }

  /**
   * One standard of `collect_samples`, from the dict `d`: its list is set to
   * `numSamples` stabilised means; also how many voltages they used up.
   * None when the voltages run out first.
   */
  function CollectOne(d: Samples, answer: Option<real>, vs: seq<real>, numSamples: nat): (r: Option<(Samples, nat)>)
    ensures r.None? <==> StableMeans(vs, numSamples).None?
    ensures r.Some? ==> r.value.1 <= |vs|
    ensures r.Some? ==> r.value.0 == Put(d, Standard(answer), StableMeans(vs, numSamples).value.0)
  {
    match StableMeans(vs, numSamples)
    case None => None
    case Some((ms, used)) => Some((Put(d, Standard(answer), ms), used))
  }

  /**
   * What `collect_samples` builds, starting from the dict `d`, for the
   * remaining answers to the standard prompts.
   */
  function CollectFrom(d: Samples, answers: seq<Option<real>>, vs: seq<real>, numSamples: nat): Option<Samples>
    decreases |answers|
  {
    if answers == [] then Some(d)
    else
      match CollectOne(d, answers[0], vs, numSamples)
      case None => None
      case Some((d', used)) => CollectFrom(d', answers[1..], vs[used..], numSamples)
  }

  /** The state of the inner loop of `collect_samples` after `j` of `count` means. */
  ghost predicate Sampling(vs: seq<real>, count: nat, j: nat, list: seq<real>, used: nat)
  {
    j <= count && used <= |vs| && StableMeans(vs, count) == Prefixed(list, used, StableMeans(vs[used..], count - j))
  }

  /** One more mean read from where the previous one stopped. */
  lemma SamplingStep(vs: seq<real>, count: nat, j: nat, list: seq<real>, used: nat, m: real, k: nat)
    requires Sampling(vs, count, j, list, used) && j < count
    requires Settle(vs[used..], CollectWindow, CollectTolerance) == (Some(m), k)
    ensures used + k <= |vs| && Sampling(vs, count, j + 1, list + [m], used + k)
  {
    StableMeansStep(vs, used, count - j - 1, m, k);
    PrefixedTwice(list, used, [m], k, StableMeans(vs[used + k..], count - j - 1));
  }

  /** A mean that never settles: the whole collection for this standard fails. */
  lemma SamplingStops(vs: seq<real>, count: nat, j: nat, list: seq<real>, used: nat)
    requires Sampling(vs, count, j, list, used) && j < count
    requires Settle(vs[used..], CollectWindow, CollectTolerance).0.None?
    ensures StableMeans(vs, count).None?
  {
  }

  /**
   * The inner loop of `collect_samples`: `numSamples` calls of
   * `sample_until_stable`, each starting on the voltages after the previous
   * one stopped, their means appended in order.
   */
  method SampleStandard(vs: seq<real>, numSamples: nat) returns (r: Option<(seq<real>, nat)>)
    ensures r == StableMeans(vs, numSamples)
  {
    var list: seq<real> := [];
    var used: nat := 0;
    PrefixedNothing(StableMeans(vs, numSamples));
    for j := 0 to numSamples
      invariant Sampling(vs, numSamples, j, list, used)
    {
      var mean, n := SampleUntilStable(vs[used..], CollectWindow, CollectTolerance);
      if mean.None? {
        SamplingStops(vs, numSamples, j, list, used);
        return None;
      }
      SamplingStep(vs, numSamples, j, list, used, mean.value, n);
      list := list + [mean.value];
      used := used + n;
    }
    assert list + [] == list;
    return Some((list, used));
  }

  /**
   * The body of the outer loop of `collect_samples` for one standard: reset
   * its list, then fill it with `numSamples` stabilised means.
   */
  method CollectStandard(d: Samples, answer: Option<real>, vs: seq<real>, numSamples: nat)
    returns (r: Option<(Samples, nat)>)
    ensures r == CollectOne(d, answer, vs, numSamples)
  {
    var standard := Standard(answer);
    var samples := Put(d, standard, []);
    var means := SampleStandard(vs, numSamples);
    if means.None? {
      return None;
    }
    PutTwice(d, standard, [], means.value.0);
    samples := Put(samples, standard, means.value.0);
    return Some((samples, means.value.1));
  }

  /**
   * `collect_samples`: for each answer to the standard prompt, reset that
   * standard's list and fill it with `numSamples` stabilised means.
   */
  method CollectSamples(answers: seq<Option<real>>, vs: seq<real>, numSamples: nat)
    returns (samples: Option<Samples>)
    ensures samples == CollectFrom(NoSamples, answers, vs, numSamples)
  {
    var d := NoSamples;
    var pending, rest := answers, vs;
    while pending != []
      invariant CollectFrom(NoSamples, answers, vs, numSamples) == CollectFrom(d, pending, rest, numSamples)
    {
      var next := CollectStandard(d, pending[0], rest, numSamples);
      if next.None? {
        return None;
      }
      d, pending, rest := next.value.0, pending[1..], rest[next.value.1..];
    }
    return Some(d);
  }

  /** Every list holds exactly `n` values and every key is a valid (non-negative) standard. */
  ghost predicate Uniform(d: Samples, n: nat)
  {
    forall k :: k in d.lists ==> |d.lists[k]| == n && k >= 0.0
  }

  /**
   * Whatever `collect_samples` returns is a well-formed dict (each standard
   * at most once) whose lists each hold `numSamples` stabilised values.
   */
  lemma {:induction false} CollectedShape(d: Samples, answers: seq<Option<real>>, vs: seq<real>, numSamples: nat)
    requires Wf(d) && Uniform(d, numSamples)
    requires CollectFrom(d, answers, vs, numSamples).Some?
    ensures Wf(CollectFrom(d, answers, vs, numSamples).value)
    ensures Uniform(CollectFrom(d, answers, vs, numSamples).value, numSamples)
    decreases |answers|
  {
    if answers != [] {
      var (d', used) := CollectOne(d, answers[0], vs, numSamples).value;
      PutKeepsOthers(d, Standard(answers[0]), StableMeans(vs, numSamples).value.0);
      CollectedShape(d', answers[1..], vs[used..], numSamples);
    }
  }

  /** The standards entered at the prompts. */
  function Entered(answers: seq<Option<real>>): set<real>
  {
    set a | a in answers :: Standard(a)
  }

  /** The keys of what `collect_samples` returns are the keys it started with and the standards entered. */
  lemma {:induction false} CollectedKeys(d: Samples, answers: seq<Option<real>>, vs: seq<real>, numSamples: nat)
    requires CollectFrom(d, answers, vs, numSamples).Some?
    ensures CollectFrom(d, answers, vs, numSamples).value.lists.Keys == d.lists.Keys + Entered(answers)
    decreases |answers|
  {
    if answers == [] {
      assert Entered(answers) == {};
    } else {
      var (d', used) := CollectOne(d, answers[0], vs, numSamples).value;
      CollectedKeys(d', answers[1..], vs[used..], numSamples);
      assert answers == [answers[0]] + answers[1..];
      assert Entered(answers) == {Standard(answers[0])} + Entered(answers[1..]);
    }
  }

  /* ---------------------------------------------------------------------
   * samples_to_arrays
   * ------------------------------------------------------------------- */

  function Repeat(x: real, n: nat): (r: seq<real>)
    ensures |r| == n && forall i :: 0 <= i < n ==> r[i] == x
  {
    if n == 0 then [] else Repeat(x, n - 1) + [x]
  }

  /** The x array: every list's voltages, in key insertion order, then list order. */
  function Voltages(order: seq<real>, lists: map<real, seq<real>>): seq<real>
    requires forall i :: 0 <= i < |order| ==> order[i] in lists
  {
    if order == [] then []
    else Voltages(order[..|order| - 1], lists) + lists[order[|order| - 1]]
  }

  /** The y array: each key repeated once per voltage in its list. */
  function Standards(order: seq<real>, lists: map<real, seq<real>>): seq<real>
    requires forall i :: 0 <= i < |order| ==> order[i] in lists
  {
    if order == [] then []
    else Standards(order[..|order| - 1], lists) + Repeat(order[|order| - 1], |lists[order[|order| - 1]]|)
  }

  /** `samples_to_arrays`: flatten the dict into paired x (voltage) and y (standard) arrays. */
  method SamplesToArrays(samples: Samples) returns (x: seq<real>, y: seq<real>)
    requires Wf(samples)
    ensures x == Voltages(samples.order, samples.lists)
    ensures y == Standards(samples.order, samples.lists)
  {
    x, y := [], [];
    for i := 0 to |samples.order|
      invariant x == Voltages(samples.order[..i], samples.lists)
      invariant y == Standards(samples.order[..i], samples.lists)
    {
      var standard := samples.order[i];
      var voltages := samples.lists[standard];
      for j := 0 to |voltages|
        invariant x == Voltages(samples.order[..i], samples.lists) + voltages[..j]
        invariant y == Standards(samples.order[..i], samples.lists) + Repeat(standard, j)
      {
        x := x + [voltages[j]];
        y := y + [standard];
      }
      assert samples.order[..i + 1][..i] == samples.order[..i];
    }
    assert samples.order[..|samples.order|] == samples.order;
  }

  /**
   * x and y have the same length, and each x[i] is paired with the
   * standard whose list it came from.
   */
  lemma {:induction false} ArraysPaired(order: seq<real>, lists: map<real, seq<real>>, i: nat)
    requires forall i :: 0 <= i < |order| ==> order[i] in lists
    ensures |Voltages(order, lists)| == |Standards(order, lists)|
    ensures i < |Voltages(order, lists)| ==>
      exists p, q :: 0 <= p < |order| && 0 <= q < |lists[order[p]]| &&
        Voltages(order, lists)[i] == lists[order[p]][q] && Standards(order, lists)[i] == order[p]
  {
    if order != [] {
      var init, last := order[..|order| - 1], order[|order| - 1];
      ArraysPaired(init, lists, i);
      var n := |Voltages(init, lists)|;
      if i < n {
        var p, q :| 0 <= p < |init| && 0 <= q < |lists[init[p]]| &&
          Voltages(init, lists)[i] == lists[init[p]][q] && Standards(init, lists)[i] == init[p];
        assert order[p] == init[p];
      } else if i < |Voltages(order, lists)| {
        var p, q := |order| - 1, i - n;
        assert Voltages(order, lists)[i] == lists[order[p]][q];
      }
    }
  }

  lemma MulSucc(m: nat, n: nat)
    ensures m * n + n == (m + 1) * n
  {
  }

  /** With `n` values per standard, the arrays have `n` entries per distinct standard. */
  lemma {:induction false} ArraysLength(order: seq<real>, lists: map<real, seq<real>>, n: nat)
    requires forall i :: 0 <= i < |order| ==> order[i] in lists && |lists[order[i]]| == n
    ensures |Voltages(order, lists)| == |order| * n
  {
    if order != [] {
      var m := |order| - 1;
      ArraysLength(order[..m], lists, n);
      assert |Voltages(order, lists)| == |Voltages(order[..m], lists)| + n;
      MulSucc(m, n);
    }
  }

  /* ---------------------------------------------------------------------
   * apply_calibration (the in-memory merge)
   * ------------------------------------------------------------------- */

  function Lower(c: char): char
  {
    if 'A' <= c <= 'Z' then (c as int + 32) as char else c
  }

  /** `name.lower().replace(' ', '_')` on ASCII names. */
  function SensorKey(name: string): (key: string)
    ensures |key| == |name|
    ensures forall i :: 0 <= i < |key| ==> key[i] != ' ' && !('A' <= key[i] <= 'Z')
    ensures forall i :: 0 <= i < |name| ==> key[i] == if name[i] == ' ' then '_' else Lower(name[i])
  {
    seq(|name|, i requires 0 <= i < |name| => if name[i] == ' ' then '_' else Lower(name[i]))
  }

  lemma SensorKeyIdempotent(name: string)
    ensures SensorKey(SensorKey(name)) == SensorKey(name)
  {
  }

  /** One sensor's record in the calibration file. */
  datatype Entry = Entry(coeffs: seq<real>, degree: int, log: string)

  /**
   * `apply_calibration`: load the mapping (an unreadable file is an empty
   * mapping), set the record of this sensor's key and keep every other key.
   * `stored` is None when loading raised.
   */
  method ApplyCalibration(stored: Option<map<string, Entry>>, coeffs: seq<real>, degree: int, log: string, sensorName: string)
    returns (calibration: map<string, Entry>)
    ensures SensorKey(sensorName) in calibration
    ensures calibration[SensorKey(sensorName)] == Entry(coeffs, degree, log)
    ensures calibration.Keys == stored.GetOr(map[]).Keys + {SensorKey(sensorName)}
    ensures forall k :: k in calibration && k != SensorKey(sensorName) ==> calibration[k] == stored.value[k]
  {
    var sensorKey := SensorKey(sensorName);
    calibration := map[];
    match stored {
      case Some(loaded) => calibration := loaded;
      case None => calibration := map[];
    }
    calibration := calibration[sensorKey := Entry(coeffs, degree, log)];
  }

  /* ---------------------------------------------------------------------
   * main: settings and the final menu
   * ------------------------------------------------------------------- */

  const SensorNames: seq<string> := ["Turbidity", "Total Dissolved Solids", "pH"]
  const SensorUnits: seq<string> := ["NTU", "ppm", "pH"]

  lemma SensorKeys()
    ensures SensorKey(SensorNames[0]) == "turbidity"
    ensures SensorKey(SensorNames[1]) == "total_dissolved_solids"
    ensures SensorKey(SensorNames[2]) == "ph"
  {
  }

  datatype Settings = Settings(sensorIndex: int, channelIndex: int, numStandards: int, numSamples: int)

  /**
   * The four prompts before sampling. Whatever is typed, the settings are
   * in range, because every default satisfies its own validity test.
   */
  function ReadSettings(sensor: Option<int>, channel: Option<int>, standards: Option<int>, samples: Option<int>): (s: Settings)
    ensures 0 <= s.sensorIndex < |SensorNames| && 0 <= s.channelIndex <= 3
    ensures s.numStandards > 0 && s.numSamples > 0
    ensures sensor.Some? && 0 <= sensor.value < 3 ==> s.sensorIndex == sensor.value
    ensures channel.Some? && 0 <= channel.value <= 3 ==> s.channelIndex == channel.value
    ensures standards.Some? && standards.value > 0 ==> s.numStandards == standards.value
    ensures samples.Some? && samples.value > 0 ==> s.numSamples == samples.value
    ensures !(sensor.Some? && 0 <= sensor.value < 3) ==> s.sensorIndex == 0
    ensures !(channel.Some? && 0 <= channel.value <= 3) ==> s.channelIndex == 0
    ensures !(standards.Some? && standards.value > 0) ==> s.numStandards == 3
    ensures !(samples.Some? && samples.value > 0) ==> s.numSamples == 10
  {
    Settings(
      Ask(sensor, 0, x => 0 <= x < |SensorNames|),
      Ask(channel, 0, x => 0 <= x <= 3),
      Ask(standards, 3, x => x > 0),
      Ask(samples, 10, x => x > 0))
  }

  /** The polynomial degree prompt: at least 0, default 1. */
  function ReadDegree(answer: Option<int>): (degree: int)
    ensures degree >= 0
    ensures answer.Some? && answer.value >= 0 ==> degree == answer.value
  {
    Ask(answer, 1, x => x >= 0)
  }

  /** The apply/log/exit prompt: `str` never fails, anything but a, l or e becomes a. */
  function MenuOption(answer: string): (option: string)
    ensures option == "a" || option == "l" || option == "e"
    ensures answer == "a" || answer == "l" || answer == "e" ==> option == answer
  {
    Ask(Some(answer), "a", o => o == "a" || o == "l" || o == "e")
  }

  datatype Completion = Completion(logged: bool, applied: bool, log: string)

  /**
   * The end of `main`: samples are logged for a and l, coefficients are
   * written for a only, and the recorded log path stays "" unless logged.
   * `logPath` is the file name `log_samples` returns.
   */
  function Complete(option: string, logPath: string): (c: Completion)
    ensures c.logged <==> option == "a" || option == "l"
    ensures c.applied <==> option == "a"
    ensures c.log == if c.logged then logPath else ""
  {
    var log := if option == "a" || option == "l" then logPath else "";
    Completion(option == "a" || option == "l", option == "a", log)
  }

  /** Coefficients are never written without the samples being logged first. */
  lemma AppliedImpliesLogged(answer: string, logPath: string)
    ensures var c := Complete(MenuOption(answer), logPath);
      c.applied ==> c.logged && c.log == logPath
  {
  }

  /** Any answer other than l or e (a typo, an empty line) applies the calibration. */
  lemma UnrecognisedAnswerApplies(answer: string, logPath: string)
    requires answer != "l" && answer != "e"
    ensures Complete(MenuOption(answer), logPath).applied
  {
  }
}
