/**
 * The text a DS18B20 probe exposes through the 1-Wire sysfs file, as both
 * temperature drivers read it: the first line ends in "YES" when the CRC
 * check passed, and the second line carries the temperature in thousandths
 * of a degree after "t=". Each read of the file is a list of lines; the
 * reads the drivers would make are a finite sequence, whose length bounds
 * the polling the drivers would otherwise keep up forever.
 */
module OneWire {
  import opened Wrappers

  /** What a driver call does: it returns, raises, or is still polling when the reads run out. */
  datatype Outcome<+T> = OutOfReads | Raised(error: PyError) | Returned(value: T)

  /** The characters Python's `str.isspace` accepts. */
  predicate IsSpace(c: char)
  {
    var n := c as int;
    n == 0x20 || 0x09 <= n <= 0x0D || 0x1C <= n <= 0x1F || n == 0x85 || n == 0xA0 ||
    n == 0x1680 || 0x2000 <= n <= 0x200A || n == 0x2028 || n == 0x2029 ||
    n == 0x202F || n == 0x205F || n == 0x3000
  }

  ghost predicate AllSpace(s: string)
  {
    forall i :: 0 <= i < |s| ==> IsSpace(s[i])
  }

  /** `s.lstrip()`: the suffix of `s` after its leading whitespace. */
  function TrimStart(s: string): (r: string)
    ensures |r| <= |s| && r == s[|s| - |r|..]
    ensures r == [] || !IsSpace(r[0])
  {
    if s != [] && IsSpace(s[0]) then TrimStart(s[1..]) else s
  }

  /** `lstrip` stops at the first character that is not whitespace. */
  lemma {:induction false} TrimStartStops(s: string, k: nat)
    requires k < |s| && !IsSpace(s[k])
    ensures |TrimStart(s)| >= |s| - k
  {
    if IsSpace(s[0]) {
      assert k > 0 && s[1..][k - 1] == s[k];
      TrimStartStops(s[1..], k - 1);
    }
  }

  /** `s.rstrip()`: the prefix of `s` before its trailing whitespace. */
  function TrimEnd(s: string): (r: string)
    ensures |r| <= |s| && r == s[..|r|]
    ensures r == [] || !IsSpace(r[|r| - 1])
  {
    if s != [] && IsSpace(s[|s| - 1]) then TrimEnd(s[..|s| - 1]) else s
  }

  /** `s.strip()`: a part of `s` that neither starts nor ends with whitespace. */
  function Strip(s: string): (r: string)
    ensures |r| <= |s|
    ensures r == [] || (!IsSpace(r[0]) && !IsSpace(r[|r| - 1]))
  {
    TrimStart(TrimEnd(s))
  }

  /** Trailing whitespace is all `rstrip` removes. */
  lemma {:induction false} TrimEndSpaces(p: string, ws: string)
    requires p == [] || !IsSpace(p[|p| - 1])
    requires AllSpace(ws)
    ensures TrimEnd(p + ws) == p
    decreases |ws|
  {
    if ws != [] {
      var w := ws[..|ws| - 1];
      assert (p + ws)[..|p + ws| - 1] == p + w;
      TrimEndSpaces(p, w);
    } else {
      assert p + ws == p;
    }
  }

  /** `s[-3:]`: the last three characters, or all of `s` when it is shorter. */
  function LastThree(s: string): (r: string)
    ensures |s| >= 3 ==> r == s[|s| - 3..]
    ensures |s| < 3 ==> r == s
  {
    if |s| >= 3 then s[|s| - 3..] else s
  }

  /** The readiness test on the first line: `lines[0].strip()[-3:] == 'YES'`. */
  predicate Ready(line: string)
  {
    LastThree(Strip(line)) == "YES"
  }

  /** A line is ready exactly when, once stripped, it ends in "YES". */
  lemma ReadyIff(line: string)
    ensures Ready(line) <==> |Strip(line)| >= 3 && Strip(line)[|Strip(line)| - 3..] == "YES"
  {
  }

  /** Whatever precedes it, a line that ends in "YES" and whitespace is ready. */
  lemma ReadyWhenEndsInYes(p: string, ws: string)
    requires AllSpace(ws)
    ensures Ready(p + "YES" + ws)
  {
    var line := p + "YES";
    assert line[|line| - 1] == 'S';
    TrimEndSpaces(line, ws);
    var r := TrimStart(line);
    assert line[|line| - 3] == 'Y';
    TrimStartStops(line, |line| - 3);
    assert r[|r| - 3..] == line[|line| - 3..] == "YES";
  }

  /** The position of the first occurrence of `pat` in `s` at or after `i`, or -1. */
  function FindFrom(s: string, pat: string, i: nat): (r: int)
    requires i <= |s|
    ensures r == -1 || i <= r <= |s| - |pat|
    decreases |s| - i
  {
    if i + |pat| > |s| then -1
    else if s[i..i + |pat|] == pat then i
    else if i == |s| then -1
    else FindFrom(s, pat, i + 1)
  }

  /** `s.find(pat)`. */
  function Find(s: string, pat: string): int
  {
    FindFrom(s, pat, 0)
  }

  ghost predicate OccursAt(s: string, pat: string, i: int)
  {
    0 <= i && i + |pat| <= |s| && s[i..i + |pat|] == pat
  }

  /** `find` gives the first occurrence, and -1 exactly when there is none. */
  lemma {:induction false} FindFromIsFirst(s: string, pat: string, i: nat)
    requires i <= |s|
    ensures var r := FindFrom(s, pat, i);
      (r >= 0 ==> OccursAt(s, pat, r) && forall k :: i <= k < r ==> !OccursAt(s, pat, k)) &&
      (r == -1 ==> forall k :: i <= k ==> !OccursAt(s, pat, k))
    decreases |s| - i
  {
    if i + |pat| <= |s| && s[i..i + |pat|] != pat && i < |s| {
      FindFromIsFirst(s, pat, i + 1);
    }
  }

  lemma FindIsFirst(s: string, pat: string)
    ensures Find(s, pat) >= 0 ==>
      OccursAt(s, pat, Find(s, pat)) && forall k :: 0 <= k < Find(s, pat) ==> !OccursAt(s, pat, k)
    ensures Find(s, pat) == -1 <==> forall k :: !OccursAt(s, pat, k)
  {
    FindFromIsFirst(s, pat, 0);
  }

  predicate IsDigit(c: char)
  {
    '0' <= c <= '9'
  }

  ghost predicate AllDigits(s: string)
  {
    forall i :: 0 <= i < |s| ==> IsDigit(s[i])
  }

  /** The value of a string of decimal digits. */
  function DigitsValue(s: string): nat
    requires AllDigits(s)
  {
    if s == [] then 0 else 10 * DigitsValue(s[..|s| - 1]) + (s[|s| - 1] as int - '0' as int)
  }

  /**
   * `float(s)` on the integer form the probe writes: optional surrounding
   * whitespace, an optional sign and at least one digit. Anything else is
   * None, for ValueError.
   */
  function ParseInt(s: string): (r: Option<int>)
    ensures Strip(s) == [] ==> r.None?
    ensures r.Some? ==> IsDigit(Strip(s)[|Strip(s)| - 1])
    ensures r.Some? && r.value < 0 ==> Strip(s)[0] == '-'
  {
    ParseStripped(Strip(s))
  }

  /** The sign and the digits of the stripped text, with None for ValueError. */
  function ParseStripped(t: string): (r: Option<int>)
    ensures t == [] ==> r.None?
    ensures r.Some? ==> IsDigit(t[|t| - 1])
    ensures r.Some? && r.value < 0 ==> t[0] == '-'
  {
    if t == [] then None
    else
      var neg := t[0] == '-';
      var digits := if t[0] == '-' || t[0] == '+' then t[1..] else t;
      if digits == [] || !(forall i :: 0 <= i < |digits| ==> IsDigit(digits[i])) then None
      else
        var magnitude: int := DigitsValue(digits);
        Some(if neg then -magnitude else magnitude)
  }

  /** The decimal digits of `n`, as Python's `str` writes them. */
  function NatToString(n: nat): (s: string)
    ensures s != [] && AllDigits(s) && IsDigit(s[0])
  {
    var d := [(n % 10 + '0' as int) as char];
    if n < 10 then d else NatToString(n / 10) + d
  }

  lemma {:induction false} NatToStringValue(n: nat)
    ensures DigitsValue(NatToString(n)) == n
  {
    var s := NatToString(n);
    if n >= 10 {
      NatToStringValue(n / 10);
      assert s[..|s| - 1] == NatToString(n / 10);
    }
  }

  /** The decimal form of `n`, with a minus sign when negative. */
  function IntToString(n: int): (s: string)
    ensures s != [] && !IsSpace(s[0]) && !IsSpace(s[|s| - 1])
  {
    if n < 0 then "-" + NatToString(-n) else NatToString(n)
  }

  /** Parsing the decimal form of an integer, followed by a line break, gives that integer back. */
  lemma ParseIntRoundTrip(n: int, ws: string)
    requires AllSpace(ws)
    ensures ParseInt(IntToString(n) + ws) == Some(n)
  {
    var s := IntToString(n);
    TrimEndSpaces(s, ws);
    assert Strip(s + ws) == Strip(s);
    ParseIntSameStrip(s + ws, s);
    ParseIntOfIntToString(n);
  }

  /** `float` sees only the text without surrounding whitespace. */
  lemma ParseIntSameStrip(a: string, b: string)
    requires Strip(a) == Strip(b)
    ensures ParseInt(a) == ParseInt(b)
  {
  }

  /** The decimal form of an integer parses back to it. */
  lemma ParseIntOfIntToString(n: int)
    ensures ParseInt(IntToString(n)) == Some(n)
  {
    var s := IntToString(n);
    assert Strip(s) == s;
    if n < 0 {
      NatToStringValue(-n);
      assert s[1..] == NatToString(-n);
    } else {
      NatToStringValue(n);
    }
  }

  /** What the second line yields: no "t=" at all, a value after it that does not parse, or degrees Celsius. */
  datatype TemperatureText = NoMarker | Malformed | Celsius(degrees: real)

  /**
   * `lines[1].find('t=')`, then `float(lines[1][pos + 2:]) / 1000.0`:
   * the number after the first "t=", in thousandths of a degree.
   */
  function ParseTemperature(line: string): (r: TemperatureText)
    ensures r == NoMarker <==> Find(line, "t=") == -1
  {
    var pos := Find(line, "t=");
    if pos == -1 then NoMarker
    else
      match ParseInt(line[pos + 2..])
      case None => Malformed
      case Some(milli) => Celsius(milli as real / 1000.0)
  }

  /**
   * A second line carrying no "t=" before the one that ends it, followed by
   * a reading in thousandths and a line break, parses to that reading
   * divided by 1000.
   */
  lemma ParseTemperatureRoundTrip(p: string, milli: int, ws: string)
    requires Find(p, "t=") == -1 && AllSpace(ws)
    ensures ParseTemperature(p + "t=" + IntToString(milli) + ws) == Celsius(milli as real / 1000.0)
  {
    ParseIntRoundTrip(milli, ws);
    ParseAfterFirstMarker(p, IntToString(milli) + ws, milli);
    AppendAssociative(p + "t=", IntToString(milli), ws);
  }

  /** When the first "t=" ends the prefix `p`, the number after it is what is parsed. */
  lemma ParseAfterFirstMarker(p: string, rest: string, milli: int)
    requires Find(p, "t=") == -1 && ParseInt(rest) == Some(milli)
    ensures ParseTemperature(p + "t=" + rest) == Celsius(milli as real / 1000.0)
  {
    FindAfterMarkerFreePrefix(p, rest);
    assert (p + "t=" + rest)[|p| + 2..] == rest;
  }

  lemma AppendAssociative(a: string, b: string, c: string)
    ensures a + b + c == a + (b + c)
  {
  }

  /** The first "t=" after a prefix that has none is the one right after that prefix. */
  lemma FindAfterMarkerFreePrefix(p: string, rest: string)
    requires Find(p, "t=") == -1
    ensures Find(p + "t=" + rest, "t=") == |p|
  {
    var line := p + "t=" + rest;
    FindIsFirst(p, "t=");
    FindIsFirst(line, "t=");
    assert line[|p|..|p| + 2] == "t=";
    assert OccursAt(line, "t=", |p|);
    forall k | 0 <= k < |p| ensures !OccursAt(line, "t=", k) {
      if k + 2 <= |p| {
        assert line[k..k + 2] == p[k..k + 2];
        assert !OccursAt(p, "t=", k);
      } else {
        assert line[k..k + 2][1] == line[|p|] == 't';
      }
    }
  }

  /**
   * The polling loop's outcome, from the `k`-th read on, for the readiness
   * test `ready`: the index of the first read whose first line passes it,
   * IndexError when a read before it has no lines, or OutOfReads.
   */
  function FirstReadyFrom(snapshots: seq<seq<string>>, k: nat, ready: string -> bool): (r: Outcome<nat>)
    requires k <= |snapshots|
    ensures r.Returned? ==> k <= r.value < |snapshots|
    ensures r.Raised? ==> r.error == IndexError
    decreases |snapshots| - k
  {
    if k == |snapshots| then OutOfReads
    else if snapshots[k] == [] then Raised(IndexError)
    else if ready(snapshots[k][0]) then Returned(k)
    else FirstReadyFrom(snapshots, k + 1, ready)
  }

  /**
   * The read the loop stops at is ready and every read before it had a
   * first line that was not ready.
   */
  lemma {:induction false} FirstReadyIsFirst(snapshots: seq<seq<string>>, k: nat, ready: string -> bool)
    requires k <= |snapshots| && FirstReadyFrom(snapshots, k, ready).Returned?
    ensures var j := FirstReadyFrom(snapshots, k, ready).value;
      snapshots[j] != [] && ready(snapshots[j][0]) &&
      forall i :: k <= i < j ==> snapshots[i] != [] && !ready(snapshots[i][0])
    decreases |snapshots| - k
  {
    if snapshots[k] != [] && !ready(snapshots[k][0]) {
      FirstReadyIsFirst(snapshots, k + 1, ready);
    }
  }

  /** When the reads run out, every one of them had a first line that was not ready. */
  lemma {:induction false} FirstReadyNone(snapshots: seq<seq<string>>, k: nat, ready: string -> bool)
    requires k <= |snapshots| && FirstReadyFrom(snapshots, k, ready).OutOfReads?
    ensures forall i :: k <= i < |snapshots| ==> snapshots[i] != [] && !ready(snapshots[i][0])
    decreases |snapshots| - k
  {
    if k < |snapshots| {
      assert snapshots[k] != [] && !ready(snapshots[k][0]);
      FirstReadyNone(snapshots, k + 1, ready);
    }
  }

  /** A first read that is ready ends the polling at once. */
  lemma ReadyAtOnce(snapshots: seq<seq<string>>, ready: string -> bool)
    requires snapshots != [] && snapshots[0] != [] && ready(snapshots[0][0])
    ensures FirstReadyFrom(snapshots, 0, ready) == Returned(0)
  {
  }

  /**
   * The polling loop both drivers run: read the file, and while its first
   * line is not ready, wait and read it again. Returns the index of the
   * read it stopped at.
   */
  method AwaitReady(snapshots: seq<seq<string>>) returns (r: Outcome<nat>)
    ensures r == FirstReadyFrom(snapshots, 0, Ready)
  {
    if |snapshots| == 0 {
      return OutOfReads;
    }
    var i := 0;
    var lines := snapshots[0];
    while true
      invariant 0 <= i < |snapshots| && lines == snapshots[i]
      invariant FirstReadyFrom(snapshots, 0, Ready) == FirstReadyFrom(snapshots, i, Ready)
      decreases |snapshots| - i
    {
      if lines == [] {
        return Raised(IndexError);
      }
      if Ready(lines[0]) {
        return Returned(i);
      }
      i := i + 1;
      if i == |snapshots| {
        return OutOfReads;
      }
      lines := snapshots[i];
    }
  }

  /**
   * What a driver's `read` does, given the successive contents of the file:
   * poll until the first line is ready, then `interpret` the lines of that
   * same read.
   */
  function PollThen<T>(snapshots: seq<seq<string>>, interpret: seq<string> -> Outcome<T>): Outcome<T>
  {
    match FirstReadyFrom(snapshots, 0, Ready)
    case OutOfReads => OutOfReads
    case Raised(e) => Raised(e)
    case Returned(j) => interpret(snapshots[j])
  }

  /** The body both drivers' `read` share: the polling loop, then the interpretation of the ready read. */
  method ReadThen<T>(snapshots: seq<seq<string>>, interpret: seq<string> -> Outcome<T>) returns (r: Outcome<T>)
    ensures r == PollThen(snapshots, interpret)
  {
    var ready := AwaitReady(snapshots);
    match ready {
      case OutOfReads => return OutOfReads;
      case Raised(e) => return Raised(e);
      case Returned(j) => return interpret(snapshots[j]);
    }
  }
}
