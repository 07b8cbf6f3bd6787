/** The proleptic Gregorian calendar as Python's `datetime` uses it: a date is
    numbered by its ordinal (0001-01-01 is day 1, a Monday), the weekday is a
    fixed function of the ordinal, `strftime("%Y-%m-%d")` renders an ordinal and
    `strptime(s, "%Y-%m-%d")` is a partial parse back to one. */
module Calendar {
  import opened Wrappers
  import opened Text

  predicate IsLeap(y: int) {
    y % 4 == 0 && (y % 100 != 0 || y % 400 == 0)
  }

  function YearLength(y: int): int {
    if IsLeap(y) then 366 else 365
  }

  function DaysInMonth(y: int, m: int): (n: int)
    requires 1 <= m <= 12
    ensures 28 <= n <= 31
  {
    if m == 2 then (if IsLeap(y) then 29 else 28)
    else if m == 4 || m == 6 || m == 9 || m == 11 then 30
    else 31
  }

  /** Days of the year before the first of month `m` (`m == 13` gives the year's length). */
  function DaysBeforeMonth(y: int, m: int): int
    requires 1 <= m <= 13
  {
    [0, 31, 59, 90, 120, 151, 181, 212, 243, 273, 304, 334, 365][m - 1]
      + (if m > 2 && IsLeap(y) then 1 else 0)
  }

  /** Days before January 1st of year `y`, counted from 0001-01-01. */
  function DaysBeforeYear(y: int): int
    requires y >= 1
  {
    var p := y - 1;
    p * 365 + p / 4 - p / 100 + p / 400
  }

  /** The ordinal of 9999-12-31, the last date `datetime` represents. */
  const MaxOrdinal: int := 3652059

  datatype Ymd = Ymd(year: int, month: int, day: int)

  predicate ValidYmd(d: Ymd) {
    1 <= d.year <= 9999 && 1 <= d.month <= 12 && 1 <= d.day <= DaysInMonth(d.year, d.month)
  }

  function Ordinal(d: Ymd): int
    requires d.year >= 1 && 1 <= d.month <= 12
  {
    DaysBeforeYear(d.year) + DaysBeforeMonth(d.year, d.month) + d.day
  }

  /** Python's `date.weekday()`: 0 is Monday, 6 is Sunday. */
  function Weekday(n: int): (w: int)
    ensures 0 <= w < 7
  {
    (n + 6) % 7
  }

  const DayNames: seq<string> :=
    ["понедельник", "вторник", "среда", "четверг", "пятница", "суббота", "воскресенье"]

  /** `_get_day_of_week_ru`: the Russian weekday name of a date. */
  function DayName(n: int): string {
    DayNames[Weekday(n)]
  }

  lemma {:induction false} MonthStep(y: int, m: int)
    requires 1 <= m <= 12
    ensures DaysBeforeMonth(y, m + 1) == DaysBeforeMonth(y, m) + DaysInMonth(y, m)
  {
    if m == 1 {} else if m == 2 {} else if m == 3 {} else if m == 4 {} else if m == 5 {}
    else if m == 6 {} else if m == 7 {} else if m == 8 {} else if m == 9 {} else if m == 10 {}
    else if m == 11 {} else {}
  }

  /** How `p / k` grows from `p` to `p + 1` for the three divisors of the leap-year rule. */
  lemma DivStep(p: int)
    requires p >= 0
    ensures (p + 1) / 4 == p / 4 + (if (p + 1) % 4 == 0 then 1 else 0)
    ensures (p + 1) / 100 == p / 100 + (if (p + 1) % 100 == 0 then 1 else 0)
    ensures (p + 1) / 400 == p / 400 + (if (p + 1) % 400 == 0 then 1 else 0)
  {
  }

  lemma YearStep(y: int)
    requires y >= 1
    ensures DaysBeforeYear(y + 1) == DaysBeforeYear(y) + YearLength(y)
  {
    var p := y - 1;
    DivStep(p);
  }

  lemma {:induction false} DaysBeforeYearMonotone(a: int, b: int)
    requires 1 <= a <= b
    ensures DaysBeforeYear(a) <= DaysBeforeYear(b)
    decreases b - a
  {
    if a < b {
      YearStep(a);
      DaysBeforeYearMonotone(a + 1, b);
    }
  }

  lemma YearBound(n: int, y: int)
    requires 1 <= y && DaysBeforeYear(y) < n <= MaxOrdinal
    ensures y <= 9999
  {
    if y > 9999 {
      DaysBeforeYearMonotone(10000, y);
    }
  }

  /** The year holding ordinal `n`, searched upwards from year `y`. */
  function YearFrom(n: int, y: int): (r: int)
    requires 1 <= y && DaysBeforeYear(y) < n
    ensures y <= r && DaysBeforeYear(r) < n <= DaysBeforeYear(r + 1)
    decreases n - DaysBeforeYear(y)
  {
    YearStep(y);
    if n <= DaysBeforeYear(y + 1) then y else YearFrom(n, y + 1)
  }

  /** The month holding day `k` of year `y`, searched upwards from month `m`. */
  function MonthFrom(y: int, k: int, m: int): (r: int)
    requires 1 <= m <= 12 && DaysBeforeMonth(y, m) < k <= YearLength(y)
    ensures m <= r <= 12 && DaysBeforeMonth(y, r) < k <= DaysBeforeMonth(y, r + 1)
    decreases 12 - m
  {
    if k <= DaysBeforeMonth(y, m + 1) then m else MonthFrom(y, k, m + 1)
  }

  /** Python's `date.fromordinal(n)`: the calendar date of ordinal `n`. */
  function FromOrdinal(n: int): (d: Ymd)
    requires 1 <= n <= MaxOrdinal
    ensures ValidYmd(d) && Ordinal(d) == n
  {
    var y := YearFrom(n, 1);
    YearStep(y);
    YearBound(n, y);
    var k := n - DaysBeforeYear(y);
    var m := MonthFrom(y, k, 1);
    MonthStep(y, m);
    Ymd(y, m, k - DaysBeforeMonth(y, m))
  }

  /** `strftime("%Y-%m-%d")`. */
  function FormatDate(n: int): string
    requires 1 <= n <= MaxOrdinal
  {
    var d := FromOrdinal(n);
    Pad4(d.year) + "-" + Pad2(d.month) + "-" + Pad2(d.day)
  }

  /** `strftime("%d.%m.%Y")`, the date as the chat shows it. */
  function DisplayDate(n: int): string
    requires 1 <= n <= MaxOrdinal
  {
    var d := FromOrdinal(n);
    Pad2(d.day) + "." + Pad2(d.month) + "." + Pad4(d.year)
  }

  /** The `%m` field of `strptime` followed by the `-` after it: one of
      `10`..`12`, `01`..`09` or a single digit `1`..`9`. Gives the month and the
      text after the `-`. */
  function ParseMonthField(s: string): (r: Option<(int, string)>)
    ensures r.Some? ==> |r.value.1| < |s| && r.value.1 == s[|s| - |r.value.1|..]
    ensures r.Some? ==> 1 <= r.value.0 <= 12 && '_' !in s[..|s| - |r.value.1|]
  {
    if |s| >= 3 && s[2] == '-' && ((s[0] == '1' && '0' <= s[1] <= '2') || (s[0] == '0' && '1' <= s[1] <= '9')) then
      Some((10 * DigitValue(s[0]) + DigitValue(s[1]), s[3..]))
    else if |s| >= 2 && s[1] == '-' && '1' <= s[0] <= '9' then
      Some((DigitValue(s[0]), s[2..]))
    else
      None
  }

  /** The `%d` field of `strptime`, which must end the text: one of `30`, `31`,
      `10`..`29`, `01`..`09`, a single digit `1`..`9`, or a space and a digit. */
  function ParseDayField(s: string): (r: Option<int>)
    ensures r.Some? ==> 1 <= r.value <= 31 && '_' !in s
  {
    if |s| == 2 && ((s[0] == '3' && (s[1] == '0' || s[1] == '1'))
                    || ((s[0] == '1' || s[0] == '2') && IsDigit(s[1]))
                    || (s[0] == '0' && '1' <= s[1] <= '9')) then
      Some(10 * DigitValue(s[0]) + DigitValue(s[1]))
    else if |s| == 2 && s[0] == ' ' && '1' <= s[1] <= '9' then
      Some(DigitValue(s[1]))
    else if |s| == 1 && '1' <= s[0] <= '9' then
      Some(DigitValue(s[0]))
    else
      None
  }

  /** `datetime.strptime(s, "%Y-%m-%d")`, giving the ordinal of the date, or
      `None` where Python raises `ValueError`: the text does not match the
      format, the year is 0000, or the day does not exist in that month. */
  function ParseDate(s: string): (r: Option<int>)
    ensures r.Some? ==> 1 <= r.value <= MaxOrdinal && '_' !in s
  {
    if |s| < 5 || !(forall i :: 0 <= i < 4 ==> IsDigit(s[i])) || s[4] != '-' then None
    else
      var y := DigitsValue(s[..4]);
      DigitsValueBound(s[..4]);
      match ParseMonthField(s[5..])
      case None => None
      case Some((m, rest)) =>
        match ParseDayField(rest)
        case None => None
        case Some(d) =>
          if 1 <= y && d <= DaysInMonth(y, m) then
            assert s == s[..5] + s[5..][..|s[5..]| - |rest|] + rest;
            assert ValidYmd(Ymd(y, m, d));
            OrdinalBound(Ymd(y, m, d));
            Some(Ordinal(Ymd(y, m, d)))
          else None
  }

  lemma OrdinalBound(d: Ymd)
    requires ValidYmd(d)
    ensures 1 <= Ordinal(d) <= MaxOrdinal
  {
    MonthStep(d.year, d.month);
    YearStep(d.year);
    DaysBeforeYearMonotone(d.year + 1, 10000);
    if d.month < 12 {
      assert DaysBeforeMonth(d.year, d.month + 1) <= DaysBeforeMonth(d.year, 13);
    }
  }

  lemma ParseMonthOfPad2(m: int, rest: string)
    requires 1 <= m <= 12
    ensures ParseMonthField(Pad2(m) + "-" + rest) == Some((m, rest))
  {
    var s := Pad2(m) + "-" + rest;
    assert s[3..] == rest;
  }

  lemma ParseDayOfPad2(d: int)
    requires 1 <= d <= 31
    ensures ParseDayField(Pad2(d)) == Some(d)
  {
  }

  /** `strptime` reads back what `strftime` wrote: every representable date
      round-trips through its `%Y-%m-%d` text. */
  lemma ParseFormatDate(n: int)
    requires 1 <= n <= MaxOrdinal
    ensures ParseDate(FormatDate(n)) == Some(n)
  {
    var d := FromOrdinal(n);
    var s := FormatDate(n);
    assert s == Pad4(d.year) + "-" + (Pad2(d.month) + "-" + Pad2(d.day));
    assert s[..4] == Pad4(d.year);
    assert s[5..] == Pad2(d.month) + "-" + Pad2(d.day);
    ParseMonthOfPad2(d.month, Pad2(d.day));
    ParseDayOfPad2(d.day);
  }

  /** Different days have different `%Y-%m-%d` texts. */
  lemma FormatDateInjective(m: int, n: int)
    requires 1 <= m <= MaxOrdinal && 1 <= n <= MaxOrdinal && m != n
    ensures FormatDate(m) != FormatDate(n)
  {
    ParseFormatDate(m);
    ParseFormatDate(n);
  }

  /** `d` is the text `strftime("%Y-%m-%d")` writes for the day it names. */
  predicate CanonicalDate(d: string) {
    ParseDate(d).Some? && FormatDate(ParseDate(d).value) == d
  }

  /** Two canonical texts of one day are the same text. */
  lemma CanonicalSameDay(d1: string, d2: string)
    requires CanonicalDate(d1) && CanonicalDate(d2) && ParseDate(d1) == ParseDate(d2)
    ensures d1 == d2
  {
  }

  /** `strptime` also reads a month and a day below ten written with one digit
      (`2030-1-2`), a spelling `strftime` never writes: such a day has a
      second text that names it. */
  lemma ShortSpellingSameDay(n: int)
    requires 1 <= n <= MaxOrdinal && FromOrdinal(n).month <= 9 && FromOrdinal(n).day <= 9
    ensures var d := FromOrdinal(n);
      var s := Pad4(d.year) + "-" + [DigitChar(d.month)] + "-" + [DigitChar(d.day)];
      ParseDate(s) == Some(n) && s != FormatDate(n) && !CanonicalDate(s)
  {
    var d := FromOrdinal(n);
    var s := Pad4(d.year) + "-" + [DigitChar(d.month)] + "-" + [DigitChar(d.day)];
    ParseShortSpelling(d);
    assert |s| == 8 && |FormatDate(n)| == 10;
  }

  lemma ParseShortSpelling(d: Ymd)
    requires ValidYmd(d) && d.month <= 9 && d.day <= 9
    ensures ParseDate(Pad4(d.year) + "-" + [DigitChar(d.month)] + "-" + [DigitChar(d.day)]) == Some(Ordinal(d))
  {
    var rest := [DigitChar(d.day)];
    var tail := [DigitChar(d.month)] + "-" + rest;
    var s := Pad4(d.year) + "-" + tail;
    assert s == Pad4(d.year) + "-" + [DigitChar(d.month)] + "-" + [DigitChar(d.day)];
    assert s[..4] == Pad4(d.year);
    assert s[5..] == tail;
    assert tail[2..] == rest;
  }
}
