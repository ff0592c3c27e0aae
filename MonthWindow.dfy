/**
 * scripts/fetch_organization/utils.py: the trailing window of monthly
 * values that the star reports show (`get_object_by_month_key`), and the
 * `"{year}-{month}"` keys that the monthly dictionaries are indexed by.
 *
 * The clock read (`datetime.now()`) becomes the `year`/`month` parameters.
 */
module MonthWindow {
  import opened Strings

  /** Ordered dictionary from month key to a count (Python dicts keep insertion order). */
  type MonthSeries = seq<(string, int)>

  /** `f"{year}-{month}"`: no zero padding on either part. */
  function MonthKey(year: int, month: nat): string
  {
    IntToString(year) + "-" + NatToString(month)
  }

  /** Number of decimal digits at the end of `s`. */
  function TrailingDigits(s: string): (n: nat)
    ensures n <= |s|
    ensures forall i :: |s| - n <= i < |s| ==> IsDigit(s[i])
    decreases |s|
  {
    if s != [] && IsDigit(s[|s| - 1]) then 1 + TrailingDigits(s[..|s| - 1]) else 0
  }

  /** Reads a month key back: the year before the last `-`, the month after it. */
  function ParseMonthKey(s: string): (int, int)
  {
    var n := TrailingDigits(s);
    var year := if |s| > n then ParseInt(s[..|s| - n - 1]) else 0;
    (year, DigitsValue(s[|s| - n..]))
  }

  lemma {:induction false} TrailingDigitsAfterDash(a: string, d: string)
    requires forall i :: 0 <= i < |d| ==> IsDigit(d[i])
    ensures TrailingDigits(a + "-" + d) == |d|
    decreases |d|
  {
    var s := a + "-" + d;
    if d == [] {
      assert s[|s| - 1] == '-';
    } else {
      assert s[..|s| - 1] == a + "-" + d[..|d| - 1];
      TrailingDigitsAfterDash(a, d[..|d| - 1]);
    }
  }

  /** Formatting a month key and reading it back gives the same year and month. */
  lemma MonthKeyRoundTrip(year: int, month: nat)
    ensures ParseMonthKey(MonthKey(year, month)) == (year, month)
  {
    var y := IntToString(year);
    var d := NatToString(month);
    var s := MonthKey(year, month);
    TrailingDigitsAfterDash(y, d);
    assert s[..|s| - |d| - 1] == y;
    assert s[|s| - |d|..] == d;
    IntToStringRoundTrip(year);
    NatToStringRoundTrip(month);
  }

  /** Different months never share a key. */
  lemma MonthKeyInjective(y1: int, m1: nat, y2: int, m2: nat)
    requires MonthKey(y1, m1) == MonthKey(y2, m2)
    ensures y1 == y2 && m1 == m2
  {
    MonthKeyRoundTrip(y1, m1);
    MonthKeyRoundTrip(y2, m2);
  }

  /** Months counted on one line: January of year 0 is 0. */
  function MonthIndex(year: int, month: int): int
  {
    year * 12 + (month - 1)
  }

  /** The calendar month `back` months before `(year, month)`. */
  function MonthsBefore(year: int, month: int, back: int): (ym: (int, int))
    ensures 1 <= ym.1 <= 12
    ensures MonthIndex(ym.0, ym.1) == MonthIndex(year, month) - back
  {
    var idx := MonthIndex(year, month) - back;
    (idx / 12, idx % 12 + 1)
  }

  /** A calendar month is determined by its index. */
  lemma MonthIndexInjective(y1: int, m1: int, y2: int, m2: int)
    requires 1 <= m1 <= 12 && 1 <= m2 <= 12
    requires MonthIndex(y1, m1) == MonthIndex(y2, m2)
    ensures y1 == y2 && m1 == m2
  {
  }

  /** One step back from January is December of the year before. */
  lemma JanuaryStepsBackToDecember(year: int)
    ensures MonthsBefore(year, 1, 1) == (year - 1, 12)
  {
    var ym := MonthsBefore(year, 1, 1);
    MonthIndexInjective(ym.0, ym.1, year - 1, 12);
  }

  /** One step back from any other month stays in the same year. */
  lemma StepBackWithinYear(year: int, month: int)
    requires 2 <= month <= 12
    ensures MonthsBefore(year, month, 1) == (year, month - 1)
  {
    var ym := MonthsBefore(year, month, 1);
    MonthIndexInjective(ym.0, ym.1, year, month - 1);
  }

  /** Python `d.get(key, 0)`. */
  function GetOrZero(m: map<string, int>, key: string): int
  {
    if key in m then m[key] else 0
  }

  /** The key of the month `back` months before `(year, month)`. */
  function BackKey(year: int, month: int, back: int): string
  {
    var ym := MonthsBefore(year, month, back);
    MonthKey(ym.0, ym.1)
  }

  /** The key of the `j`-th entry of an `n`-month window ending at `(year, month)`. */
  function WindowKey(year: int, month: int, n: int, j: int): string
  {
    BackKey(year, month, n - 1 - j)
  }

  /** The loop's step (decrement, wrapping January to December of the year before) is one month back. */
  lemma StepBack(year: int, month: int, i: int, currentYear: int, currentMonth: int)
    requires 1 <= currentMonth <= 12
    requires (currentYear, currentMonth) == MonthsBefore(year, month, i)
    ensures (if currentMonth - 1 < 1 then (currentYear - 1, 12) else (currentYear, currentMonth - 1))
         == MonthsBefore(year, month, i + 1)
  {
    var next := MonthsBefore(year, month, i + 1);
    if currentMonth - 1 < 1 {
      MonthIndexInjective(currentYear - 1, 12, next.0, next.1);
    } else {
      MonthIndexInjective(currentYear, currentMonth - 1, next.0, next.1);
    }
  }

  /** The window as a value: `n` entries, oldest month first, each with its value or 0. */
  function Window(monthObject: map<string, int>, monthCount: int, year: int, month: int): (w: MonthSeries)
    ensures |w| == if monthCount < 0 then 0 else monthCount
  {
    var n := if monthCount < 0 then 0 else monthCount;
    seq(n, j requires 0 <= j < n =>
      (WindowKey(year, month, n, j), GetOrZero(monthObject, WindowKey(year, month, n, j))))
  }

  /** Values stored under keys outside the window make no difference. */
  lemma WindowIgnoresOtherKeys(a: map<string, int>, b: map<string, int>, monthCount: int, year: int, month: int)
    requires forall j :: 0 <= j < monthCount ==>
      GetOrZero(a, WindowKey(year, month, monthCount, j)) == GetOrZero(b, WindowKey(year, month, monthCount, j))
    ensures Window(a, monthCount, year, month) == Window(b, monthCount, year, month)
  {
  }

  /** The first loop of `get_object_by_month_key`: the keys of the current month and the ones before it, newest first. */
  method PastMonthKeys(monthCount: int, year: int, month: int) returns (monthKeys: seq<string>)
    requires 1 <= month <= 12
    ensures |monthKeys| == if monthCount < 0 then 0 else monthCount
    ensures forall k :: 0 <= k < |monthKeys| ==> monthKeys[k] == BackKey(year, month, k)
  {
    monthKeys := [];
    var currentYear, currentMonth := year, month;
    var i := 0;
    while i < monthCount
      invariant 0 <= i && (monthCount >= 0 ==> i <= monthCount)
      invariant monthCount < 0 ==> i == 0
      invariant 1 <= currentMonth <= 12
      invariant (currentYear, currentMonth) == MonthsBefore(year, month, i)
      invariant |monthKeys| == i
      invariant forall k :: 0 <= k < i ==> monthKeys[k] == BackKey(year, month, k)
    {
      monthKeys := monthKeys + [MonthKey(currentYear, currentMonth)];
      StepBack(year, month, i, currentYear, currentMonth);
      currentMonth := currentMonth - 1;
      if currentMonth < 1 {
        currentMonth := 12;
        currentYear := currentYear - 1;
      }
      i := i + 1;
    }
  }

  /**
   * `get_object_by_month_key(month_object, month_count)` with the current
   * date passed in: the last `month_count` months, oldest first and ending
   * with the current month, each mapped to its value in `monthObject`
   * (0 when absent); keys of `monthObject` outside the window are dropped.
   */
  method GetObjectByMonthKey(monthObject: map<string, int>, monthCount: int, year: int, month: int)
    returns (result: MonthSeries)
    requires 1 <= month <= 12
    ensures result == Window(monthObject, monthCount, year, month)
    ensures |result| == if monthCount < 0 then 0 else monthCount
    ensures forall j :: 0 <= j < |result| ==>
      result[j].0 == WindowKey(year, month, |result|, j) &&
      result[j].1 == GetOrZero(monthObject, result[j].0)
  {
    var monthKeys := PastMonthKeys(monthCount, year, month);
    var n := |monthKeys|;
    var ordered := seq(n, k requires 0 <= k < n => monthKeys[n - 1 - k]);
    result := [];
    var j := 0;
    while j < n
      invariant 0 <= j <= n
      invariant |result| == j
      invariant forall k :: 0 <= k < j ==>
        result[k].0 == WindowKey(year, month, n, k) &&
        result[k].1 == GetOrZero(monthObject, result[k].0)
    {
      var key := ordered[j];
      assert key == WindowKey(year, month, n, j);
      result := result + [(key, GetOrZero(monthObject, key))];
      j := j + 1;
    }
  }

  /** The last entry of a non-empty window is the current month. */
  lemma WindowEndsAtCurrentMonth(year: int, month: int, n: int)
    requires 1 <= month <= 12
    requires n >= 1
    ensures WindowKey(year, month, n, n - 1) == MonthKey(year, month)
  {
    var ym := MonthsBefore(year, month, 0);
    MonthIndexInjective(ym.0, ym.1, year, month);
  }

  /** Consecutive entries of a window are consecutive calendar months. */
  lemma WindowIsChronological(year: int, month: int, n: int, j: int)
    requires 0 <= j < j + 1 < n
    ensures MonthIndex(MonthsBefore(year, month, n - 1 - j).0, MonthsBefore(year, month, n - 1 - j).1) + 1
         == MonthIndex(MonthsBefore(year, month, n - 2 - j).0, MonthsBefore(year, month, n - 2 - j).1)
  {
  }

  /** No key appears twice in a window, so the dictionary has exactly `n` keys. */
  lemma WindowKeysDistinct(year: int, month: int, n: int, i: int, j: int)
    requires 0 <= i < j < n
    ensures WindowKey(year, month, n, i) != WindowKey(year, month, n, j)
  {
    var a := MonthsBefore(year, month, n - 1 - i);
    var b := MonthsBefore(year, month, n - 1 - j);
    if WindowKey(year, month, n, i) == WindowKey(year, month, n, j) {
      MonthKeyInjective(a.0, a.1, b.0, b.1);
      assert false;
    }
  }
}
