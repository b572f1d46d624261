/**
 * The list operations the sensor drivers use: Python's `list.sort()` on
 * voltages (modelled by the ascending sort it must produce) and slicing with
 * Python's rules for negative and out-of-range bounds.
 */
module Sorting {
  import opened Numeric

  ghost predicate Sorted(s: seq<real>)
  {
    forall i, j :: 0 <= i < j < |s| ==> s[i] <= s[j]
  }

  function Insert(x: real, s: seq<real>): (r: seq<real>)
    requires Sorted(s)
    ensures Sorted(r) && multiset(r) == multiset(s) + multiset{x} && |r| == |s| + 1
    ensures r[0] == x || (|s| > 0 && r[0] == s[0])
  {
    if s == [] || x <= s[0] then
      [x] + s
    else
      assert s == [s[0]] + s[1..];
      var t := Insert(x, s[1..]);
      assert s[0] <= t[0];
      assert multiset([s[0]] + t) == multiset{s[0]} + multiset(t);
      [s[0]] + t
  }

  /** The ascending order `list.sort()` leaves the readings in. */
  function Sort(s: seq<real>): (r: seq<real>)
    ensures Sorted(r) && multiset(r) == multiset(s) && |r| == |s|
  {
    if s == [] then []
    else
      assert s == [s[0]] + s[1..];
      Insert(s[0], Sort(s[1..]))
  }

  lemma SortedHeadIsLeast(a: seq<real>, x: real)
    requires Sorted(a) && x in multiset(a)
    ensures a != [] && a[0] <= x
  {
    var i :| 0 <= i < |a| && a[i] == x;
    assert i == 0 || a[0] <= a[i];
  }

  lemma SortedTail(a: seq<real>)
    requires Sorted(a) && a != []
    ensures Sorted(a[1..]) && multiset(a[1..]) == multiset(a) - multiset{a[0]}
  {
    assert a == [a[0]] + a[1..];
  }

  /** Two ascending sequences holding the same values start with the same, least, value. */
  lemma SameHead(a: seq<real>, b: seq<real>)
    requires Sorted(a) && Sorted(b) && multiset(a) == multiset(b) && a != []
    ensures b != [] && a[0] == b[0]
  {
    assert a[0] in multiset(b);
    SortedHeadIsLeast(b, a[0]);
    assert b[0] in multiset(a);
    SortedHeadIsLeast(a, b[0]);
  }

  /** Two ascending sequences holding the same values are the same sequence. */
  lemma {:induction false} SortedUnique(a: seq<real>, b: seq<real>)
    requires Sorted(a) && Sorted(b) && multiset(a) == multiset(b)
    ensures a == b
  {
    if a == [] {
      assert |b| == |multiset(b)| == 0;
    } else {
      SameHead(a, b);
      SortedTail(a);
      SortedTail(b);
      SortedUnique(a[1..], b[1..]);
      assert a == [a[0]] + a[1..];
      assert b == [b[0]] + b[1..];
    }
  }

  /** Sorting forgets the order the readings arrived in. */
  lemma SortPermutationInvariant(s: seq<real>, t: seq<real>)
    requires multiset(s) == multiset(t)
    ensures Sort(s) == Sort(t)
  {
    SortedUnique(Sort(s), Sort(t));
  }

  lemma SortWithin(s: seq<real>, lo: real, hi: real)
    requires Within(s, lo, hi)
    ensures Within(Sort(s), lo, hi)
  {
    var r := Sort(s);
    forall k | 0 <= k < |r| ensures lo <= r[k] <= hi {
      assert r[k] in multiset(s);
    }
  }

  /** A Python index clamped into [0, n] the way slicing clamps it. */
  function SliceBound(i: int, n: nat): (b: nat)
    ensures b <= n
    ensures 0 <= i <= n ==> b == i
    ensures -(n as int) <= i < 0 ==> b == n + i
  {
    if i < 0 then (if i + n < 0 then 0 else i + n)
    else if i > n then n else i
  }

  /** `s[start:stop]` with Python's slicing rules. */
  function PySlice(s: seq<real>, start: int, stop: int): (r: seq<real>)
    ensures var a, b := SliceBound(start, |s|), SliceBound(stop, |s|);
      |r| == (if a < b then b - a else 0) &&
      forall k :: 0 <= k < |r| ==> r[k] == s[a + k]
  {
    var a, b := SliceBound(start, |s|), SliceBound(stop, |s|);
    if a < b then s[a..b] else []
  }

  /** Trimming `k > 0` from each end keeps the middle `|s| - 2k` values. */
  lemma TrimMiddle(s: seq<real>, k: int)
    requires 0 < k && 2 * k < |s|
    ensures PySlice(s, k, -k) == s[k..|s| - k]
  {
  }

  /** `s[0:-0]` is `s[0:0]`: always empty. */
  lemma TrimZeroIsEmpty(s: seq<real>)
    ensures PySlice(s, 0, -0) == []
  {
  }

  lemma PySliceWithin(s: seq<real>, start: int, stop: int, lo: real, hi: real)
    requires Within(s, lo, hi)
    ensures Within(PySlice(s, start, stop), lo, hi)
  {
  }

  lemma {:induction false} SumInsert(x: real, t: seq<real>)
    requires Sorted(t)
    ensures Sum(Insert(x, t)) == x + Sum(t)
    decreases |t|
  {
    if t == [] || x <= t[0] {
      assert ([x] + t)[1..] == t;
    } else {
      assert Sorted(t[1..]);
      SumInsert(x, t[1..]);
      var r := Insert(x, t[1..]);
      assert ([t[0]] + r)[1..] == r;
    }
  }

  /** Sorting does not change the sum, hence not the mean, of the readings. */
  lemma {:induction false} SumSort(s: seq<real>)
    ensures Sum(Sort(s)) == Sum(s)
  {
    if s != [] {
      SumSort(s[1..]);
      SumInsert(s[0], Sort(s[1..]));
    }
  }

  lemma MeanSort(s: seq<real>)
    requires |s| > 0
    ensures Mean(Sort(s)) == Mean(s)
  {
    SumSort(s);
  }
}
