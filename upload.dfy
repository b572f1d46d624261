/**
 * The upload of one sample to the remote store, as both samplers do it:
 * up to `max_retries` POST attempts, stopping at the first success, with a
 * wait of `base_backoff * 2^k` seconds after the failed attempt `k` unless
 * it was the last. A POST either succeeds or raises (a connection error,
 * a timeout, or an error status turned into an exception by
 * `raise_for_status`); `outcome(k)` is whether attempt `k` succeeds, and
 * every exception from a POST is caught. The wait itself can raise: the
 * synchronous sampler's `time.sleep` raises ValueError on a negative wait,
 * which escapes its handler and ends the upload; the asynchronous
 * sampler's `asyncio.sleep` returns at once instead.
 */
module Upload {
  import opened Wrappers

  /** One thing `send_sample` does: a POST attempt and whether it succeeded, or a wait. */
  datatype Step = Post(attempt: nat, ok: bool) | Sleep(seconds: int)

  function Pow2(k: nat): (r: nat)
    ensures r >= 1
  {
    if k == 0 then 1 else 2 * Pow2(k - 1)
  }

  /** The steps of the upload, from attempt `k` on. */
  function ScheduleFrom(outcome: nat -> bool, k: nat, maxRetries: int, baseBackoff: int): seq<Step>
    decreases maxRetries - k
  {
    if k >= maxRetries then []
    else if outcome(k) then [Post(k, true)]
    else if k == maxRetries - 1 then [Post(k, false)]
    else [Post(k, false), Sleep(baseBackoff * Pow2(k))] + ScheduleFrom(outcome, k + 1, maxRetries, baseBackoff)
  }

  /** Everything one call of `send_sample` does. */
  function Schedule(outcome: nat -> bool, maxRetries: int, baseBackoff: int): seq<Step>
  {
    ScheduleFrom(outcome, 0, maxRetries, baseBackoff)
  }

  /** The first attempt from `k` on, below `n`, that succeeds. */
  function FirstSuccessFrom(outcome: nat -> bool, k: nat, n: int): (r: Option<nat>)
    ensures r.Some? ==> k <= r.value < n && outcome(r.value)
    ensures r.Some? ==> forall j :: k <= j < r.value ==> !outcome(j)
    ensures r.None? ==> forall j :: k <= j < n ==> !outcome(j)
    decreases n - k
  {
    if k >= n then None
    else if outcome(k) then Some(k)
    else FirstSuccessFrom(outcome, k + 1, n)
  }

  /**
   * How many POSTs are made from attempt `k` on: up to and including the
   * first success, or all the remaining ones when none succeeds.
   */
  function AttemptsFrom(outcome: nat -> bool, k: nat, n: int): nat
  {
    match FirstSuccessFrom(outcome, k, n)
    case Some(s) => s + 1 - k
    case None => if k >= n then 0 else n - k
  }

  function Attempts(outcome: nat -> bool, n: int): nat
  {
    AttemptsFrom(outcome, 0, n)
  }

  /** A failed attempt that is not the last leaves one attempt fewer to go. */
  lemma AttemptsStep(outcome: nat -> bool, k: nat, n: int)
    requires k < n - 1 && !outcome(k)
    ensures AttemptsFrom(outcome, k, n) == AttemptsFrom(outcome, k + 1, n) + 1
  {
  }

  /** The upload makes one fewer wait than attempts. */
  lemma {:induction false} ScheduleLength(outcome: nat -> bool, k: nat, n: int, base: int)
    ensures var a := AttemptsFrom(outcome, k, n);
      |ScheduleFrom(outcome, k, n, base)| == if a == 0 then 0 else 2 * a - 1
    decreases n - k
  {
    if k < n && !outcome(k) && k != n - 1 {
      AttemptsStep(outcome, k, n);
      ScheduleLength(outcome, k + 1, n, base);
    }
  }

  /** The `i`-th attempt made is attempt number `k + i`, with its own outcome. */
  lemma {:induction false} SchedulePostAt(outcome: nat -> bool, k: nat, n: int, base: int, i: nat)
    requires i < AttemptsFrom(outcome, k, n)
    ensures 2 * i < |ScheduleFrom(outcome, k, n, base)|
    ensures ScheduleFrom(outcome, k, n, base)[2 * i] == Post(k + i, outcome(k + i))
    decreases i
  {
    ScheduleLength(outcome, k, n, base);
    if i > 0 {
      AttemptsStep(outcome, k, n);
      SchedulePostAt(outcome, k + 1, n, base, i - 1);
    }
  }

  /** Every attempt but the last is followed by a wait of `base * 2^attempt`. */
  lemma {:induction false} ScheduleSleepAt(outcome: nat -> bool, k: nat, n: int, base: int, i: nat)
    requires i + 1 < AttemptsFrom(outcome, k, n)
    ensures 2 * i + 1 < |ScheduleFrom(outcome, k, n, base)|
    ensures ScheduleFrom(outcome, k, n, base)[2 * i + 1] == Sleep(base * Pow2(k + i))
    decreases i
  {
    ScheduleLength(outcome, k, n, base);
    AttemptsStep(outcome, k, n);
    if i > 0 {
      ScheduleSleepAt(outcome, k + 1, n, base, i - 1);
    }
  }

  /**
   * One call of `send_sample` with `n = max_retries`: `a` attempts, where `a`
   * is one more than the index of the first success, or `n` when all fail;
   * attempt `k` is followed by a wait of `base * 2^k` seconds when `k < a - 1`,
   * and by nothing when it is the last.
   */
  lemma ScheduleShape(outcome: nat -> bool, n: int, base: int)
    ensures var t, a := Schedule(outcome, n, base), Attempts(outcome, n);
      && |t| == (if a == 0 then 0 else 2 * a - 1)
      && (forall k :: 0 <= k < a ==> t[2 * k] == Post(k, outcome(k)))
      && (forall k :: 0 <= k && k + 1 < a ==> t[2 * k + 1] == Sleep(base * Pow2(k)))
  {
    var t, a := Schedule(outcome, n, base), Attempts(outcome, n);
    ScheduleLength(outcome, 0, n, base);
    forall k | 0 <= k < a ensures t[2 * k] == Post(k, outcome(k)) {
      SchedulePostAt(outcome, 0, n, base, k);
    }
    forall k | 0 <= k && k + 1 < a ensures t[2 * k + 1] == Sleep(base * Pow2(k)) {
      ScheduleSleepAt(outcome, 0, n, base, k);
    }
  }

  /**
   * At most `max_retries` attempts are made and at most `max_retries - 1`
   * waits; with `max_retries <= 0` nothing is attempted. The attempts stop
   * at the first success, and every attempt before it failed.
   */
  lemma AttemptsBounded(outcome: nat -> bool, n: int)
    ensures Attempts(outcome, n) <= (if n < 0 then 0 else n)
    ensures n <= 0 ==> Attempts(outcome, n) == 0
    ensures FirstSuccessFrom(outcome, 0, n).Some? ==>
      Attempts(outcome, n) == FirstSuccessFrom(outcome, 0, n).value + 1
    ensures forall k :: 0 <= k < Attempts(outcome, n) - 1 ==> !outcome(k)
  {
  }

  /** The number of waits in a schedule. */
  function SleepCount(t: seq<Step>): nat
  {
    if t == [] then 0 else (if t[0].Sleep? then 1 else 0) + SleepCount(t[1..])
  }

  /** The upload waits once fewer than it attempts, so at most `max_retries - 1` times. */
  lemma {:induction false} SleepsBetweenAttempts(outcome: nat -> bool, k: nat, n: int, base: int)
    ensures SleepCount(ScheduleFrom(outcome, k, n, base)) ==
      (if AttemptsFrom(outcome, k, n) == 0 then 0 else AttemptsFrom(outcome, k, n) - 1)
    decreases n - k
  {
    if k < n && !outcome(k) && k != n - 1 {
      SleepsBetweenAttempts(outcome, k + 1, n, base);
      AttemptsStep(outcome, k, n);
      var t := ScheduleFrom(outcome, k, n, base);
      assert t[1..][1..] == ScheduleFrom(outcome, k + 1, n, base);
    } else if k < n {
      var t := ScheduleFrom(outcome, k, n, base);
      assert |t| == 1 && t[1..] == [];
    }
  }

  /**
   * With the defaults (5 attempts, 2 s base) and every POST failing, the
   * waits are 2, 4, 8 and 16 seconds; the 32 s wait is never reached.
   */
  lemma DefaultBackoffs()
    ensures Schedule(_ => false, 5, 2) == [
      Post(0, false), Sleep(2), Post(1, false), Sleep(4), Post(2, false), Sleep(8),
      Post(3, false), Sleep(16), Post(4, false)]
  {
    var fail: nat -> bool := _ => false;
    assert ScheduleFrom(fail, 4, 5, 2) == [Post(4, false)];
    assert Pow2(3) == 8;
    assert ScheduleFrom(fail, 3, 5, 2) == [Post(3, false), Sleep(16), Post(4, false)];
  }

  /** What the synchronous upload did: the steps it took, and the error that escaped it, if any. */
  datatype Sent = Sent(steps: seq<Step>, raised: Option<PyError>)

  /**
   * The synchronous upload from attempt `k` on: the schedule, except that
   * a negative wait makes `time.sleep` raise ValueError, which ends it.
   */
  function SentFrom(outcome: nat -> bool, k: nat, maxRetries: int, baseBackoff: int): Sent
    decreases maxRetries - k
  {
    if k >= maxRetries then Sent([], None)
    else if outcome(k) then Sent([Post(k, true)], None)
    else if k == maxRetries - 1 then Sent([Post(k, false)], None)
    else if baseBackoff * Pow2(k) < 0 then Sent([Post(k, false)], Some(ValueError))
    else
      var rest := SentFrom(outcome, k + 1, maxRetries, baseBackoff);
      Sent([Post(k, false), Sleep(baseBackoff * Pow2(k))] + rest.steps, rest.raised)
  }

  /** With a base that is not negative no wait raises, and the upload is the whole schedule. */
  lemma {:induction false} SentIsSchedule(outcome: nat -> bool, k: nat, maxRetries: int, baseBackoff: int)
    requires baseBackoff >= 0
    ensures SentFrom(outcome, k, maxRetries, baseBackoff) == Sent(ScheduleFrom(outcome, k, maxRetries, baseBackoff), None)
    decreases maxRetries - k
  {
    if k < maxRetries && !outcome(k) && k != maxRetries - 1 {
      SentIsSchedule(outcome, k + 1, maxRetries, baseBackoff);
    }
  }

  /**
   * With a negative base, the upload raises ValueError exactly when the
   * first POST fails and another attempt remains, right after that POST;
   * otherwise it is the schedule.
   */
  lemma NegativeBackoffRaises(outcome: nat -> bool, maxRetries: int, baseBackoff: int)
    requires baseBackoff < 0
    ensures SentFrom(outcome, 0, maxRetries, baseBackoff).raised.Some? <==> maxRetries >= 2 && !outcome(0)
    ensures maxRetries >= 2 && !outcome(0) ==> SentFrom(outcome, 0, maxRetries, baseBackoff) == Sent([Post(0, false)], Some(ValueError))
    ensures !(maxRetries >= 2 && !outcome(0)) ==> SentFrom(outcome, 0, maxRetries, baseBackoff) == Sent(Schedule(outcome, maxRetries, baseBackoff), None)
  {
  }

  /**
   * `send_sample` of the synchronous sampler: `for attempt in range(max_retries)`,
   * returning on success and after the last failure, sleeping otherwise; a
   * negative wait raises ValueError out of the handler.
   */
  method SendSample(outcome: nat -> bool, maxRetries: int := 5, baseBackoff: int := 2)
    returns (steps: seq<Step>, raised: Option<PyError>)
    ensures Sent(steps, raised) == SentFrom(outcome, 0, maxRetries, baseBackoff)
    ensures baseBackoff >= 0 ==> steps == Schedule(outcome, maxRetries, baseBackoff) && raised == None
  {
    if baseBackoff >= 0 {
      SentIsSchedule(outcome, 0, maxRetries, baseBackoff);
    }
    steps := [];
    raised := None;
    var attempt := 0;
    while attempt < maxRetries
      invariant 0 <= attempt && (maxRetries >= 0 ==> attempt <= maxRetries)
      invariant SentFrom(outcome, 0, maxRetries, baseBackoff).raised == SentFrom(outcome, attempt, maxRetries, baseBackoff).raised
      invariant SentFrom(outcome, 0, maxRetries, baseBackoff).steps == steps + SentFrom(outcome, attempt, maxRetries, baseBackoff).steps
      decreases maxRetries - attempt
    {
      ghost var rest := SentFrom(outcome, attempt + 1, maxRetries, baseBackoff);
      if outcome(attempt) {
        steps := steps + [Post(attempt, true)];
        return;
      }
      if attempt == maxRetries - 1 {
        steps := steps + [Post(attempt, false)];
        return;
      }
      var backoffTime := baseBackoff * Pow2(attempt);
      if backoffTime < 0 {
        steps := steps + [Post(attempt, false)];
        raised := Some(ValueError);
        return;
      }
      AppendRound(steps, attempt, backoffTime, rest.steps);
      steps := steps + [Post(attempt, false), Sleep(backoffTime)];
      attempt := attempt + 1;
    }
  }

  /** A failed attempt and its wait, appended to the trace so far. */
  lemma AppendRound(steps: seq<Step>, attempt: nat, backoff: int, rest: seq<Step>)
    ensures steps + ([Post(attempt, false), Sleep(backoff)] + rest) == steps + [Post(attempt, false), Sleep(backoff)] + rest
  {
  }

  /**
   * `send_sample` of the asynchronous sampler: `while retries < max_retries`,
   * counting failures in `retries` and waiting `base_backoff * 2^(retries - 1)`
   * after each failure that does not reach `max_retries`.
   */
  method SendSampleAsync(outcome: nat -> bool, maxRetries: int := 5, baseBackoff: int := 2)
    returns (steps: seq<Step>)
    ensures steps == Schedule(outcome, maxRetries, baseBackoff)
  {
    steps := [];
    var retries := 0;
    while retries < maxRetries
      invariant 0 <= retries && (maxRetries >= 0 ==> retries <= maxRetries)
      invariant Schedule(outcome, maxRetries, baseBackoff) == steps + ScheduleFrom(outcome, retries, maxRetries, baseBackoff)
      decreases maxRetries - retries
    {
      if outcome(retries) {
        steps := steps + [Post(retries, true)];
        return;
      }
      retries := retries + 1;
      if retries >= maxRetries {
        steps := steps + [Post(retries - 1, false)];
        return;
      }
      var backoffTime := baseBackoff * Pow2(retries - 1);
      AppendRound(steps, retries - 1, backoffTime, ScheduleFrom(outcome, retries, maxRetries, baseBackoff));
      steps := steps + [Post(retries - 1, false), Sleep(backoffTime)];
    }
  }
}
