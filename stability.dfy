/**
 * The stabilisation rule shared by the calibration tool and the notebook
 * calibration session: voltages enter a deque bounded to the window size,
 * nothing is decided until the window is full, and a full window is
 * accepted when its population standard deviation is strictly below the
 * tolerance. The accepted value is the mean of that window.
 */
module Stability {
  import opened Wrappers
  import opened Numeric

  /**
   * `deque.append(x)` on a deque created with `maxlen=cap`: once the deque
   * holds `cap` values, the oldest one is dropped.
   */
  function Push(w: seq<real>, x: real, cap: nat): (r: seq<real>)
    requires |w| <= cap
    ensures |r| == if |w| < cap then |w| + 1 else cap
  {
    var full := w + [x];
    if |full| <= cap then full else full[|full| - cap..]
  }

  /** The deque after the first `k` voltages have been appended. */
  function Window(vs: seq<real>, k: nat, cap: nat): (w: seq<real>)
    requires k <= |vs|
  {
    vs[k - (if k < cap then k else cap)..k]
  }

  /** The deque holds the most recent voltages, at most `cap` of them. */
  lemma {:induction false} WindowIsPushed(vs: seq<real>, k: nat, cap: nat)
    requires k < |vs|
    ensures |Window(vs, k, cap)| <= cap
    ensures Push(Window(vs, k, cap), vs[k], cap) == Window(vs, k + 1, cap)
  {
    var w := Window(vs, k, cap);
    assert w + [vs[k]] == vs[k - |w|..k + 1];
  }

  /**
   * The acceptance test applied to the deque: it must be full, and its
   * standard deviation must be below `tol`. numpy gives nan for the mean and
   * standard deviation of an empty deque, and nan is never below anything,
   * so a window size of 0 never accepts.
   */
  predicate Accepts(w: seq<real>, cap: nat, tol: real)
  {
    |w| == cap && cap > 0 && tol > 0.0 && PopVariance(w) < tol * tol
  }

  /** The acceptance test for a deque bounded to `cap` and a tolerance `tol`. */
  function StableWith(cap: nat, tol: real): seq<real> -> bool
  {
    w => Accepts(w, cap, tol)
  }

  /**
   * The number of voltages consumed, counting from position `k`, until
   * `stable` first holds of the deque, or None if the voltages run out first
   * (the source keeps sampling forever).
   */
  function SearchFrom(vs: seq<real>, k: nat, cap: nat, stable: seq<real> -> bool): (r: Option<nat>)
    requires k <= |vs|
    decreases |vs| - k
    ensures r.Some? ==> k < r.value <= |vs|
  {
    if k == |vs| then None
    else if stable(Window(vs, k + 1, cap)) then Some(k + 1)
    else SearchFrom(vs, k + 1, cap, stable)
  }

  /**
   * The search stops at the first deque that passes: the one it stops at
   * passes, none before it does, and when it finds nothing, none passes.
   */
  lemma {:induction false} SearchIsFirst(vs: seq<real>, k: nat, cap: nat, stable: seq<real> -> bool)
    requires k <= |vs|
    ensures var r := SearchFrom(vs, k, cap, stable);
      (r.Some? ==> stable(Window(vs, r.value, cap))) &&
      (r.Some? ==> forall j :: k < j < r.value ==> !stable(Window(vs, j, cap))) &&
      (r.None? ==> forall j :: k < j <= |vs| ==> !stable(Window(vs, j, cap)))
    decreases |vs| - k
  {
    if k < |vs| && !stable(Window(vs, k + 1, cap)) {
      SearchIsFirst(vs, k + 1, cap, stable);
    }
  }

  /**
   * The number of voltages `sample_until_stable` reads, counting from
   * position `k`, before a deque is accepted, or None if the voltages run out
   * first (the source keeps sampling forever).
   */
  function FirstStableFrom(vs: seq<real>, k: nat, cap: nat, tol: real): (r: Option<nat>)
    requires k <= |vs|
    decreases |vs| - k
    ensures r.Some? ==> k < r.value <= |vs|
  {
    if k == |vs| then None
    else if Accepts(Window(vs, k + 1, cap), cap, tol) then Some(k + 1)
    else FirstStableFrom(vs, k + 1, cap, tol)
  }

  function FirstStable(vs: seq<real>, cap: nat, tol: real): Option<nat>
  {
    FirstStableFrom(vs, 0, cap, tol)
  }

  /** The search of `sample_until_stable` is the general search with its acceptance test. */
  lemma {:induction false} FirstStableIsSearch(vs: seq<real>, k: nat, cap: nat, tol: real)
    requires k <= |vs|
    ensures FirstStableFrom(vs, k, cap, tol) == SearchFrom(vs, k, cap, StableWith(cap, tol))
    decreases |vs| - k
  {
    if k < |vs| {
      assert StableWith(cap, tol)(Window(vs, k + 1, cap)) == Accepts(Window(vs, k + 1, cap), cap, tol);
      FirstStableIsSearch(vs, k + 1, cap, tol);
    }
  }

  /**
   * The voltage count returned is that of the first accepted deque; no
   * earlier deque is accepted, and when none is found, no deque at all is.
   */
  lemma FirstStableIsFirst(vs: seq<real>, cap: nat, tol: real)
    ensures var r := FirstStable(vs, cap, tol);
      (r.Some? ==> 0 < cap <= r.value <= |vs| && Accepts(Window(vs, r.value, cap), cap, tol)) &&
      (r.Some? ==> forall j :: 0 < j < r.value ==> !Accepts(Window(vs, j, cap), cap, tol)) &&
      (r.None? ==> forall j :: 0 < j <= |vs| ==> !Accepts(Window(vs, j, cap), cap, tol))
  {
    FirstStableIsSearch(vs, 0, cap, tol);
    SearchIsFirst(vs, 0, cap, StableWith(cap, tol));
  }

  /**
   * What `sample_until_stable` returns when reading `vs`: the mean of the
   * first accepted deque and the number of voltages read up to it, or None
   * and every voltage read when no deque is accepted.
   */
  function Settle(vs: seq<real>, cap: nat, tol: real): (r: (Option<real>, nat))
    ensures r.1 <= |vs|
  {
    match FirstStable(vs, cap, tol)
    case None => (None, |vs|)
    case Some(k) =>
      FirstStableIsFirst(vs, cap, tol);
      (Some(Mean(Window(vs, k, cap))), k)
  }

  /**
   * One step of the search from position `i`: if the deque after voltage
   * `i` is accepted, sampling settles there on its mean; otherwise the
   * search goes on from `i + 1`.
   */
  lemma SettleStep(vs: seq<real>, i: nat, cap: nat, tol: real)
    requires i < |vs|
    requires FirstStable(vs, cap, tol) == FirstStableFrom(vs, i, cap, tol)
    ensures Accepts(Window(vs, i + 1, cap), cap, tol) ==>
      Settle(vs, cap, tol) == (Some(Mean(Window(vs, i + 1, cap))), i + 1)
    ensures !Accepts(Window(vs, i + 1, cap), cap, tol) ==>
      FirstStable(vs, cap, tol) == FirstStableFrom(vs, i + 1, cap, tol)
  {
  }

  /** When the search has reached the end of the voltages, sampling never settles. */
  lemma SettleExhausted(vs: seq<real>, cap: nat, tol: real)
    requires FirstStable(vs, cap, tol) == FirstStableFrom(vs, |vs|, cap, tol)
    ensures Settle(vs, cap, tol) == (None, |vs|)
  {
  }

  /** An acceptance test that only ever accepts a full, non-empty deque. */
  ghost predicate FullWhenStable(stable: seq<real> -> bool, cap: nat)
  {
    forall w :: stable(w) ==> 0 < |w| == cap
  }

  /** The acceptance test of `sample_until_stable` is one. */
  lemma AcceptsOnlyFull(cap: nat, tol: real)
    ensures FullWhenStable(StableWith(cap, tol), cap)
  {
  }

  /**
   * Sampling with any acceptance test that only accepts full deques: the
   * mean of the first deque accepted and the number of voltages read up
   * to it, or None and every voltage read.
   */
  function SettleWith(vs: seq<real>, cap: nat, stable: seq<real> -> bool): (r: (Option<real>, nat))
    requires FullWhenStable(stable, cap)
    ensures r.1 <= |vs|
  {
    match SearchFrom(vs, 0, cap, stable)
    case None => (None, |vs|)
    case Some(k) =>
      SearchIsFirst(vs, 0, cap, stable);
      (Some(Mean(Window(vs, k, cap))), k)
  }

  /** `sample_until_stable` is sampling with its own acceptance test. */
  lemma SettleIsSettleWith(vs: seq<real>, cap: nat, tol: real)
    ensures FullWhenStable(StableWith(cap, tol), cap)
    ensures Settle(vs, cap, tol) == SettleWith(vs, cap, StableWith(cap, tol))
  {
    AcceptsOnlyFull(cap, tol);
    FirstStableIsSearch(vs, 0, cap, tol);
  }

  /** One step of the search from position `i`, for any acceptance test. */
  lemma SettleWithStep(vs: seq<real>, i: nat, cap: nat, stable: seq<real> -> bool)
    requires i < |vs| && FullWhenStable(stable, cap)
    requires SearchFrom(vs, 0, cap, stable) == SearchFrom(vs, i, cap, stable)
    ensures stable(Window(vs, i + 1, cap)) ==>
      SettleWith(vs, cap, stable) == (Some(Mean(Window(vs, i + 1, cap))), i + 1)
    ensures !stable(Window(vs, i + 1, cap)) ==>
      SearchFrom(vs, 0, cap, stable) == SearchFrom(vs, i + 1, cap, stable)
  {
  }

  /** The end of the voltages reached by the search, for any acceptance test. */
  lemma SettleWithExhausted(vs: seq<real>, cap: nat, stable: seq<real> -> bool)
    requires FullWhenStable(stable, cap)
    requires SearchFrom(vs, 0, cap, stable) == SearchFrom(vs, |vs|, cap, stable)
    ensures SettleWith(vs, cap, stable) == (None, |vs|)
  {
  }

  /**
   * Whenever a value is accepted after `k` voltages, the window was full:
   * it is exactly the last `cap` voltages read, and its variance is below
   * the squared tolerance.
   */
  lemma AcceptedWindowIsFull(vs: seq<real>, cap: nat, tol: real)
    requires FirstStable(vs, cap, tol).Some?
    ensures var k := FirstStable(vs, cap, tol).value;
      cap > 0 && cap <= k <= |vs| && Window(vs, k, cap) == vs[k - cap..k] &&
      tol > 0.0 && PopVariance(vs[k - cap..k]) < tol * tol
  {
    FirstStableIsFirst(vs, cap, tol);
  }

  /** The accepted mean lies between the smallest and largest voltage in its window. */
  lemma AcceptedMeanWithinWindow(vs: seq<real>, k: nat, cap: nat, lo: real, hi: real)
    requires 0 < cap <= k <= |vs|
    requires Within(vs[k - cap..k], lo, hi)
    ensures |Window(vs, k, cap)| > 0 && lo <= Mean(Window(vs, k, cap)) <= hi
  {
    MeanBounds(vs[k - cap..k], lo, hi);
  }

  /** With a tolerance of 0 (or less) no window is ever accepted: the comparison is strict. */
  lemma NonPositiveToleranceNeverAccepts(vs: seq<real>, cap: nat, tol: real)
    requires tol <= 0.0
    ensures FirstStable(vs, cap, tol) == None
  {
    FirstStableIsFirst(vs, cap, tol);
  }

  /**
   * When the first `cap` voltages are identical and the tolerance is
   * positive, the value is accepted as soon as the window fills, and it is
   * that voltage.
   */
  lemma ConstantInputAcceptedWhenFull(vs: seq<real>, cap: nat, tol: real, c: real)
    requires 0 < cap <= |vs| && tol > 0.0
    requires AllEqual(vs[..cap], c)
    ensures FirstStable(vs, cap, tol) == Some(cap)
    ensures Mean(Window(vs, cap, cap)) == c
  {
    var w := Window(vs, cap, cap);
    assert w == vs[..cap];
    ConstantWindow(w, c);
    SquarePositive(tol);
    calc {
      PopVariance(w);
      == 0.0;
      < tol * tol;
    }
    assert Accepts(w, cap, tol);
    var r := FirstStable(vs, cap, tol);
    FirstStableIsFirst(vs, cap, tol);
    assert r.Some? ==> |Window(vs, r.value, cap)| == cap;
  }
}
