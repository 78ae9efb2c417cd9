/** Calendar dates as Python's `datetime.date` represents them (the proleptic
    Gregorian calendar, years 1 to 9999), the `YYYY-MM-DD` text form of ISO 8601
    (calendar date, extended format, section 4.1.2.2 of ISO 8601:2004), and the
    date helpers of `DatetimeUtil`: parsing, formatting, the previous day and the
    inclusive range of days between two dates. */
module Dates {

  datatype Option<T> = None | Some(value: T)

  datatype Date = Date(year: int, month: int, day: int)

  /** A `datetime.datetime`: a calendar date and a time of day in seconds. */
  datatype DateTime = DateTime(date: Date, secondOfDay: nat)

  const MinYear := 1
  const MaxYear := 9999
  const MinDate := Date(MinYear, 1, 1)
  const MaxDate := Date(MaxYear, 12, 31)
  /** The ordinal of `MaxDate`: `date.max.toordinal()`. */
  const MaxOrdinal := 3652059

  predicate IsLeapYear(y: int) {
    y % 4 == 0 && (y % 100 != 0 || y % 400 == 0)
  }

  function DaysInYear(y: int): int {
    if IsLeapYear(y) then 366 else 365
  }

  function DaysInMonth(y: int, m: int): int {
    if m == 2 then (if IsLeapYear(y) then 29 else 28)
    else if m == 4 || m == 6 || m == 9 || m == 11 then 30
    else 31
  }

  /** A date `datetime.date` accepts. */
  predicate Valid(d: Date) {
    MinYear <= d.year <= MaxYear && 1 <= d.month <= 12 && 1 <= d.day <= DaysInMonth(d.year, d.month)
  }

  /** Year and month in range: enough for `Ordinal` to be defined. */
  predicate InCalendar(d: Date) {
    d.year >= 1 && 1 <= d.month <= 12
  }

  /** Lexicographic order on (year, month, day): Python's `<` on dates. */
  predicate Before(a: Date, b: Date) {
    a.year < b.year
    || (a.year == b.year && a.month < b.month)
    || (a.year == b.year && a.month == b.month && a.day < b.day)
  }

  function DaysBeforeYear(y: int): int
    requires y >= 1
  {
    var p := y - 1;
    p * 365 + p / 4 - p / 100 + p / 400
  }

  function DaysBeforeMonth(y: int, m: int): int
    requires 1 <= m <= 12
  {
    var common :=
      if m == 1 then 0 else if m == 2 then 31 else if m == 3 then 59
      else if m == 4 then 90 else if m == 5 then 120 else if m == 6 then 151
      else if m == 7 then 181 else if m == 8 then 212 else if m == 9 then 243
      else if m == 10 then 273 else if m == 11 then 304 else 334;
    common + (if m > 2 && IsLeapYear(y) then 1 else 0)
  }

  /** `date.toordinal()`: day 1 is 0001-01-01. */
  function Ordinal(d: Date): (o: int)
    requires InCalendar(d)
    ensures d.day >= 1 ==> o >= 1
  {
    DaysBeforeYear(d.year) + DaysBeforeMonth(d.year, d.month) + d.day
  }

  /** The calendar day after `d`: `d + timedelta(days=1)`, before the range check
      that makes Python refuse the day after `MaxDate`. */
  function NextDay(d: Date): Date {
    if d.day < DaysInMonth(d.year, d.month) then Date(d.year, d.month, d.day + 1)
    else if d.month < 12 then Date(d.year, d.month + 1, 1)
    else Date(d.year + 1, 1, 1)
  }

  /** The calendar day before `d`: `d - timedelta(days=1)`; `None` where Python
      raises `OverflowError`, that is before `MinDate`. */
  function PrevDay(d: Date): (r: Option<Date>)
    ensures r.Some? ==> Before(r.value, d)
    ensures r.None? ==> d.year <= MinYear
  {
    if d.day > 1 then Some(Date(d.year, d.month, d.day - 1))
    else if d.month > 1 then Some(Date(d.year, d.month - 1, DaysInMonth(d.year, d.month - 1)))
    else if d.year > MinYear then Some(Date(d.year - 1, 12, 31))
    else None
  }

  /** `d + timedelta(days=k)`. */
  function AddDays(d: Date, k: nat): Date
    decreases k
  {
    if k == 0 then d else AddDays(NextDay(d), k - 1)
  }

  // ---------------------------------------------------------------------------
  // Day arithmetic

  lemma DivStep(x: int)
    requires x >= 1
    ensures x / 4 - (x - 1) / 4 == if x % 4 == 0 then 1 else 0
    ensures x / 100 - (x - 1) / 100 == if x % 100 == 0 then 1 else 0
    ensures x / 400 - (x - 1) / 400 == if x % 400 == 0 then 1 else 0
    ensures x % 100 == 0 ==> x % 4 == 0
    ensures x % 400 == 0 ==> x % 100 == 0
  {
  }

  lemma DaysBeforeYearStep(y: int)
    requires y >= 1
    ensures DaysBeforeYear(y + 1) == DaysBeforeYear(y) + DaysInYear(y)
  {
    DivStep(y);
  }

  lemma {:induction false} DaysBeforeYearGrows(y1: int, y2: int)
    requires 1 <= y1 < y2
    ensures DaysBeforeYear(y1) + DaysInYear(y1) <= DaysBeforeYear(y2)
    decreases y2 - y1
  {
    DaysBeforeYearStep(y1);
    if y1 + 1 < y2 {
      DaysBeforeYearGrows(y1 + 1, y2);
      DaysBeforeYearStep(y2 - 1);
    }
  }

  lemma MonthsFillYear(y: int, m: int)
    requires 1 <= m <= 12
    ensures m < 12 ==> DaysBeforeMonth(y, m + 1) == DaysBeforeMonth(y, m) + DaysInMonth(y, m)
    ensures m == 12 ==> DaysBeforeMonth(y, m) + DaysInMonth(y, m) == DaysInYear(y)
  {
  }

  lemma {:induction false} DaysBeforeMonthGrows(y: int, m1: int, m2: int)
    requires 1 <= m1 < m2 <= 12
    ensures DaysBeforeMonth(y, m1) + DaysInMonth(y, m1) <= DaysBeforeMonth(y, m2)
    decreases m2 - m1
  {
    MonthsFillYear(y, m1);
    if m1 + 1 < m2 {
      DaysBeforeMonthGrows(y, m1 + 1, m2);
    }
  }

  /** A date's ordinal lies within its year's block of ordinals. */
  lemma OrdinalWithinYear(d: Date)
    requires Valid(d)
    ensures DaysBeforeYear(d.year) < Ordinal(d) <= DaysBeforeYear(d.year) + DaysInYear(d.year)
  {
    if d.month < 12 {
      DaysBeforeMonthGrows(d.year, d.month, 12);
    }
    MonthsFillYear(d.year, 12);
  }

  /** Python's comparison of dates agrees with the order of their ordinals, so
      each ordinal names exactly one valid date. */
  lemma BeforeIffOrdinal(a: Date, b: Date)
    requires Valid(a) && Valid(b)
    ensures Before(a, b) <==> Ordinal(a) < Ordinal(b)
    ensures a == b <==> Ordinal(a) == Ordinal(b)
  {
    OrdinalWithinYear(a);
    OrdinalWithinYear(b);
    if a.year < b.year {
      DaysBeforeYearGrows(a.year, b.year);
    } else if b.year < a.year {
      DaysBeforeYearGrows(b.year, a.year);
    } else if a.month < b.month {
      DaysBeforeMonthGrows(a.year, a.month, b.month);
    } else if b.month < a.month {
      DaysBeforeMonthGrows(a.year, b.month, a.month);
    }
  }

  lemma MaxDateOrdinal()
    ensures Valid(MaxDate) && Ordinal(MaxDate) == MaxOrdinal
  {
  }

  lemma MinDateOrdinal()
    ensures Valid(MinDate) && Ordinal(MinDate) == 1
  {
  }

  /** Every valid date's ordinal lies between those of `MinDate` and `MaxDate`. */
  lemma OrdinalBounds(d: Date)
    requires Valid(d)
    ensures 1 <= Ordinal(d) <= MaxOrdinal
  {
    OrdinalWithinYear(d);
    assert DaysBeforeYear(d.year) >= 0;
    if d.year < MaxYear {
      DaysBeforeYearGrows(d.year, MaxYear);
    }
  }

  /** Moving to the next day adds one to the ordinal, across month ends, year ends
      and leap days; it stays a valid date except after `MaxDate`. */
  lemma NextDayFacts(d: Date)
    requires Valid(d)
    ensures InCalendar(NextDay(d)) && Ordinal(NextDay(d)) == Ordinal(d) + 1
    ensures d != MaxDate ==> Valid(NextDay(d))
  {
    MonthsFillYear(d.year, d.month);
    if d.day == DaysInMonth(d.year, d.month) && d.month == 12 {
      DaysBeforeYearStep(d.year);
    }
  }

  /** The previous day exists exactly when `d` is not `MinDate`; it is valid, one
      ordinal lower, and `d` is its next day. */
  lemma PrevDayFacts(d: Date)
    requires Valid(d)
    ensures PrevDay(d).None? <==> d == MinDate
    ensures PrevDay(d).Some? ==>
      Valid(PrevDay(d).value) && NextDay(PrevDay(d).value) == d
      && Ordinal(PrevDay(d).value) == Ordinal(d) - 1
  {
    match PrevDay(d)
    case None =>
    case Some(p) =>
      assert Valid(p);
      NextDayFacts(p);
  }

  lemma {:induction false} AddDaysFacts(d: Date, k: nat)
    requires Valid(d) && Ordinal(d) + k <= MaxOrdinal
    ensures Valid(AddDays(d, k)) && Ordinal(AddDays(d, k)) == Ordinal(d) + k
    decreases k
  {
    if k > 0 {
      assert d != MaxDate by {
        MaxDateOrdinal();
      }
      NextDayFacts(d);
      AddDaysFacts(NextDay(d), k - 1);
    }
  }

  /** Adding `k + 1` days is adding `k` days and then one more. */
  lemma {:induction false} AddDaysLast(d: Date, k: nat)
    ensures AddDays(d, k + 1) == NextDay(AddDays(d, k))
    decreases k
  {
    if k > 0 {
      AddDaysLast(NextDay(d), k - 1);
    }
  }

  // ---------------------------------------------------------------------------
  // The YYYY-MM-DD text form

  predicate IsDigit(c: char) {
    '0' <= c <= '9'
  }

  function DigitChar(n: int): char
    requires 0 <= n <= 9
  {
    (48 + n) as char
  }

  function DigitValue(c: char): int {
    c as int - 48
  }

  /** The last `width` decimal digits of `n`, zero-padded. */
  function Digits(n: int, width: nat): (s: string)
    ensures |s| == width
    decreases width
  {
    if width == 0 then [] else Digits(n / 10, width - 1) + [DigitChar(n % 10)]
  }

  function Pow10(k: nat): nat {
    if k == 0 then 1 else 10 * Pow10(k - 1)
  }

  /** The value of a string of decimal digits. */
  function Decimal(s: string): int {
    if s == [] then 0 else Decimal(s[..|s| - 1]) * 10 + DigitValue(s[|s| - 1])
  }

  /** `str(d)` and `strftime(d, '%Y-%m-%d')`: the year padded to four digits and
      month and day to two. `str(d)` always pads the year; `strftime` does so on
      the platforms where it pads years below 1000. */
  function Format(d: Date): (s: string)
    ensures |s| == 10 && s[4] == '-' && s[7] == '-'
  {
    Digits(d.year, 4) + "-" + Digits(d.month, 2) + "-" + Digits(d.day, 2)
  }

  /** Ten characters `DDDD-DD-DD` where each `D` is an ASCII digit. */
  predicate IsIsoShape(s: string) {
    |s| == 10 && s[4] == '-' && s[7] == '-'
    && forall i | 0 <= i < 10 && i != 4 && i != 7 :: IsDigit(s[i])
  }

  /** `datetime.strptime(s, "%Y-%m-%d")`: `None` where Python raises `ValueError`.
      The result is midnight of a valid date whose text form is `s` itself. */
  function ParseDateTime(s: string): (r: Option<DateTime>)
    ensures r.Some? ==> r.value.secondOfDay == 0 && Valid(r.value.date) && Format(r.value.date) == s
  {
    if IsIsoShape(s) then
      var d := Date(Decimal(s[..4]), Decimal(s[5..7]), Decimal(s[8..]));
      if Valid(d) then
        IsoFields(s);
        Some(DateTime(d, 0))
      else None
    else None
  }

  /** `DatetimeUtil.str_to_date`: the date part of `str_to_datetime`. */
  function ParseDate(s: string): (r: Option<Date>)
    ensures r.Some? <==> ParseDateTime(s).Some?
    ensures r.Some? ==> Valid(r.value) && Format(r.value) == s && ParseDateTime(s).value.date == r.value
  {
    match ParseDateTime(s)
    case None => None
    case Some(dt) => Some(dt.date)
  }

  /** `DatetimeUtil.datetime_to_str`: the date part only, as `YYYY-MM-DD`. */
  function DatetimeToStr(dt: DateTime): (s: string)
    ensures Valid(dt.date) ==> ParseDate(s) == Some(dt.date)
  {
    assert Valid(dt.date) ==> ParseDate(Format(dt.date)) == Some(dt.date) by {
      if Valid(dt.date) {
        FormatParses(dt.date);
      }
    }
    Format(dt.date)
  }

  /** `DatetimeUtil.previous_day`: the parsed date-time minus one day; `None` where
      Python raises (unparsable text, or the day before `MinDate`). */
  function PreviousDay(s: string): (r: Option<DateTime>)
    ensures r.Some? <==> ParseDate(s).Some? && ParseDate(s).value != MinDate
    ensures r.Some? ==>
      Valid(r.value.date) && NextDay(r.value.date) == ParseDate(s).value
      && Ordinal(r.value.date) == Ordinal(ParseDate(s).value) - 1
  {
    match ParseDateTime(s)
    case None => None
    case Some(dt) =>
      PrevDayFacts(dt.date);
      match PrevDay(dt.date)
      case None => None
      case Some(p) => Some(DateTime(p, dt.secondOfDay))
  }

  /** `DatetimeUtil.date_range_between_two_dates`: the text forms of `start`,
      `start + 1 day`, ..., `end`; empty when `end` is before `start`. */
  function DateRange(start: Date, end: Date): (r: seq<string>)
    requires Valid(start) && Valid(end)
    ensures |r| == if Before(end, start) then 0 else Ordinal(end) - Ordinal(start) + 1
  {
    BeforeIffOrdinal(end, start);
    var n := Ordinal(end) - Ordinal(start) + 1;
    seq(if n > 0 then n else 0, k requires 0 <= k => Format(AddDays(start, k)))
  }

  // ---------------------------------------------------------------------------
  // Text-form lemmas

  lemma Split(q: int, r: int)
    requires 0 <= r < 10
    ensures (q * 10 + r) / 10 == q && (q * 10 + r) % 10 == r
  {
  }

  /** Rendering a number that fits in `width` digits gives digits that read
      back as the number. */
  lemma {:induction false} DigitsValue(n: int, width: nat)
    requires 0 <= n < Pow10(width)
    ensures forall i | 0 <= i < width :: IsDigit(Digits(n, width)[i])
    ensures Decimal(Digits(n, width)) == n
    decreases width
  {
    if width > 0 {
      var t := Digits(n / 10, width - 1);
      DigitsValue(n / 10, width - 1);
      var s := Digits(n, width);
      assert s == t + [DigitChar(n % 10)];
      assert s[..|s| - 1] == t;
      Split(n / 10, n % 10);
    }
  }

  /** Reading a string of digits and rendering the value back at the same
      width gives the string. */
  lemma {:induction false} DecimalDigits(s: string)
    requires forall i | 0 <= i < |s| :: IsDigit(s[i])
    ensures 0 <= Decimal(s) < Pow10(|s|)
    ensures Digits(Decimal(s), |s|) == s
    decreases |s|
  {
    if s != [] {
      var t := s[..|s| - 1];
      var c := s[|s| - 1];
      DecimalDigits(t);
      Split(Decimal(t), DigitValue(c));
      assert DigitChar(DigitValue(c)) == c;
      assert s == t + [c];
    }
  }

  /** The three fields of an ISO-shaped string are digit strings that render
      back to themselves. */
  lemma IsoFields(s: string)
    requires IsIsoShape(s)
    ensures s == s[..4] + "-" + s[5..7] + "-" + s[8..]
    ensures Digits(Decimal(s[..4]), 4) == s[..4]
    ensures Digits(Decimal(s[5..7]), 2) == s[5..7]
    ensures Digits(Decimal(s[8..]), 2) == s[8..]
  {
    var y, m, d := s[..4], s[5..7], s[8..];
    assert forall i | 0 <= i < 4 :: y[i] == s[i];
    assert forall i | 0 <= i < 2 :: m[i] == s[i + 5] && d[i] == s[i + 8];
    DecimalDigits(y);
    DecimalDigits(m);
    DecimalDigits(d);
  }

  /** `str_to_date(datetime_to_str(d)) == d` for every valid date. */
  lemma FormatParses(d: Date)
    requires Valid(d)
    ensures ParseDateTime(Format(d)) == Some(DateTime(d, 0))
    ensures ParseDate(Format(d)) == Some(d)
  {
    var s := Format(d);
    var y, m, dd := Digits(d.year, 4), Digits(d.month, 2), Digits(d.day, 2);
    assert Pow10(4) == 10000 && Pow10(2) == 100;
    DigitsValue(d.year, 4);
    DigitsValue(d.month, 2);
    DigitsValue(d.day, 2);
    assert s[..4] == y && s[5..7] == m && s[8..] == dd;
    forall i | 0 <= i < 10 && i != 4 && i != 7
      ensures IsDigit(s[i])
    {
      if i < 4 {
        assert s[i] == y[i];
      } else if i < 7 {
        assert s[i] == m[i - 5];
      } else {
        assert s[i] == dd[i - 8];
      }
    }
    assert IsIsoShape(s);
  }

  /** A non-empty range starts with the text of `start` and ends with that of `end`. */
  lemma DateRangeTexts(start: Date, end: Date)
    requires Valid(start) && Valid(end)
    ensures var r := DateRange(start, end);
      |r| > 0 ==> r[0] == Format(start) && r[|r| - 1] == Format(end)
  {
    if !Before(end, start) {
      DateRangeEnds(start, end);
    }
  }

  /** The k-th string of a range is the text form of `start + k days`, a valid
      date `k` ordinals after `start`; `str(date)` and `datetime_to_str` give
      the same text, so range strings compare equal to formatted dates. */
  lemma DateRangeAt(start: Date, end: Date, k: int)
    requires Valid(start) && Valid(end) && 0 <= k < |DateRange(start, end)|
    ensures DateRange(start, end)[k] == Format(AddDays(start, k))
    ensures DateRange(start, end)[k] == DatetimeToStr(DateTime(AddDays(start, k), 0))
    ensures Valid(AddDays(start, k)) && Ordinal(AddDays(start, k)) == Ordinal(start) + k
    ensures ParseDate(DateRange(start, end)[k]) == Some(AddDays(start, k))
  {
    OrdinalBounds(end);
    AddDaysFacts(start, k);
    FormatParses(AddDays(start, k));
  }

  /** For `start <= end` the range has one string per day, from `start` to `end`. */
  lemma DateRangeEnds(start: Date, end: Date)
    requires Valid(start) && Valid(end) && !Before(end, start)
    ensures Ordinal(start) <= Ordinal(end)
    ensures |DateRange(start, end)| == Ordinal(end) - Ordinal(start) + 1
    ensures DateRange(start, end)[0] == Format(start)
    ensures DateRange(start, end)[|DateRange(start, end)| - 1] == Format(end)
  {
    BeforeIffOrdinal(end, start);
    var n := Ordinal(end) - Ordinal(start) + 1;
    OrdinalBounds(end);
    AddDaysFacts(start, n - 1);
    BeforeIffOrdinal(AddDays(start, n - 1), end);
  }

  /** Each string of a range names the day after the one before it. */
  lemma DateRangeConsecutive(start: Date, end: Date, k: int)
    requires Valid(start) && Valid(end) && 0 <= k < |DateRange(start, end)| - 1
    ensures ParseDate(DateRange(start, end)[k]).Some? && ParseDate(DateRange(start, end)[k + 1]).Some?
    ensures ParseDate(DateRange(start, end)[k + 1]).value == NextDay(ParseDate(DateRange(start, end)[k]).value)
  {
    DateRangeAt(start, end, k);
    DateRangeAt(start, end, k + 1);
    AddDaysLast(start, k);
  }

  /** The dates of a range strictly ascend, so no day appears twice. */
  lemma DateRangeAscending(start: Date, end: Date, i: int, j: int)
    requires Valid(start) && Valid(end) && 0 <= i < j < |DateRange(start, end)|
    ensures ParseDate(DateRange(start, end)[i]).Some? && ParseDate(DateRange(start, end)[j]).Some?
    ensures Before(ParseDate(DateRange(start, end)[i]).value, ParseDate(DateRange(start, end)[j]).value)
    ensures DateRange(start, end)[i] != DateRange(start, end)[j]
  {
    DateRangeAt(start, end, i);
    DateRangeAt(start, end, j);
    BeforeIffOrdinal(AddDays(start, i), AddDays(start, j));
  }

  /** A worked example across a leap day. */
  lemma LeapDayRange()
    ensures DateRange(Date(2024, 2, 28), Date(2024, 3, 1)) == ["2024-02-28", "2024-02-29", "2024-03-01"]
  {
    var r := DateRange(Date(2024, 2, 28), Date(2024, 3, 1));
    LeapDaySteps();
    LeapDayTexts();
    assert |r| == 3;
  }

  lemma LeapDayTexts()
    ensures Format(Date(2024, 2, 28)) == "2024-02-28"
    ensures Format(Date(2024, 2, 29)) == "2024-02-29"
    ensures Format(Date(2024, 3, 1)) == "2024-03-01"
  {
    FormatText(2024, 2, 28);
    FormatText(2024, 2, 29);
    FormatText(2024, 3, 1);
  }

  /** The text form, field by field. */
  lemma FormatText(y: int, m: int, d: int)
    ensures Format(Date(y, m, d)) == [DigitChar(y / 1000 % 10), DigitChar(y / 100 % 10), DigitChar(y / 10 % 10), DigitChar(y % 10), '-', DigitChar(m / 10 % 10), DigitChar(m % 10), '-', DigitChar(d / 10 % 10), DigitChar(d % 10)]
  {
  }

  lemma LeapDaySteps()
    ensures Ordinal(Date(2024, 3, 1)) - Ordinal(Date(2024, 2, 28)) == 2
    ensures AddDays(Date(2024, 2, 28), 0) == Date(2024, 2, 28)
    ensures AddDays(Date(2024, 2, 28), 1) == Date(2024, 2, 29)
    ensures AddDays(Date(2024, 2, 28), 2) == Date(2024, 3, 1)
  {
  }
}
