/**
  Python's `datetime.date`: proleptic Gregorian dates of years 1 to 9999,
  compared field by field, counted by `toordinal()` (0001-01-01 is day 1),
  advanced by `+ timedelta(days=1)`, named by `weekday()` and written by
  `isoformat()`.
 */
module Calendar {
  import opened Decimal

  datatype Date = Date(year: int, month: int, day: int)

  const MinYear: int := 1
  const MaxYear: int := 9999

  /** `date.max`: adding one day to it raises `OverflowError`. */
  const MaxDate: Date := Date(9999, 12, 31)

  /** Ordinal of `date.max`. */
  const MaxOrdinal: int := 3652059

  predicate IsLeapYear(y: int) {
    y % 4 == 0 && (y % 100 != 0 || y % 400 == 0)
  }

  function DaysInYear(y: int): int {
    if IsLeapYear(y) then 366 else 365
  }

  function DaysInMonth(y: int, m: int): (n: int)
    requires 1 <= m <= 12
    ensures 28 <= n <= 31
    ensures n == 29 <==> m == 2 && IsLeapYear(y)
  {
    if m == 2 then (if IsLeapYear(y) then 29 else 28)
    else if m == 4 || m == 6 || m == 9 || m == 11 then 30
    else 31
  }

  /**
    What `date(year, month, day)` accepts without raising `ValueError`. No
    month has more than 31 days, February 29 exists only in leap years, and
    the first 28 days of every month of years 1 to 9999 are dates.
   */
  predicate Valid(d: Date)
    ensures Valid(d) ==> d.day <= 31 && (d.month == 2 && d.day == 29 ==> IsLeapYear(d.year))
    ensures MinYear <= d.year <= MaxYear && 1 <= d.month <= 12 && 1 <= d.day <= 28 ==> Valid(d)
  {
    && MinYear <= d.year <= MaxYear
    && 1 <= d.month <= 12
    && 1 <= d.day <= DaysInMonth(d.year, d.month)
  }

  /**
    `a < b` on dates: the (year, month, day) triples in lexicographic order.
    Equivalently, `a` is a different date that is at most `b` field by field,
    the year deciding first, then the month, then the day.
   */
  predicate Before(a: Date, b: Date)
    ensures Before(a, b) <==>
      a != b && a.year <= b.year && (a.year == b.year ==> a.month <= b.month && (a.month == b.month ==> a.day <= b.day))
  {
    || a.year < b.year
    || (a.year == b.year && a.month < b.month)
    || (a.year == b.year && a.month == b.month && a.day < b.day)
  }

  /** Days in the years before `y`, the closed form of `_days_before_year`. */
  function DaysBeforeYear(y: int): int
    requires y >= 1
  {
    var p := y - 1;
    p * 365 + p / 4 - p / 100 + p / 400
  }

  /** Days in the months of year `y` before month `m` (`_days_before_month`). */
  function DaysBeforeMonth(y: int, m: int): int
    requires 1 <= m <= 12
  {
    [0, 31, 59, 90, 120, 151, 181, 212, 243, 273, 304, 334][m - 1]
      + (if m > 2 && IsLeapYear(y) then 1 else 0)
  }

  /**
    `d.toordinal()`: 1 for 0001-01-01, one more for each later day. The
    ordinal of a date falls inside the span of its own year.
   */
  function ToOrdinal(d: Date): (n: int)
    requires Valid(d)
    ensures DaysBeforeYear(d.year) < n <= DaysBeforeYear(d.year) + DaysInYear(d.year)
  {
    DaysBeforeMonthLast(d.year);
    var n := DaysBeforeYear(d.year) + DaysBeforeMonth(d.year, d.month) + d.day;
    if d.month < 12 then DaysBeforeMonthGrows(d.year, d.month, 12); n else n
  }

  /**
    The day after `d`, rolling over at the end of a month and of a year. It
    always compares greater, and it is a valid date except after `date.max`.
   */
  function Succ(d: Date): (e: Date)
    requires Valid(d)
    ensures Valid(e) <==> d != MaxDate
    ensures Before(d, e)
  {
    if d.day < DaysInMonth(d.year, d.month) then Date(d.year, d.month, d.day + 1)
    else if d.month < 12 then Date(d.year, d.month + 1, 1)
    else Date(d.year + 1, 1, 1)
  }

  /** `d.weekday()`: Monday is 0 and Sunday is 6. */
  function Weekday(d: Date): (w: int)
    requires Valid(d)
    ensures 0 <= w < 7
  {
    (ToOrdinal(d) + 6) % 7
  }

  /** `d.isoformat()`: `YYYY-MM-DD`. */
  function IsoFormat(d: Date): (s: string)
    requires Valid(d)
    ensures |s| == 10 && s[4] == '-' && s[7] == '-'
    ensures AllDigits(s[..4]) && DigitsValue(s[..4]) == d.year
    ensures AllDigits(s[5..7]) && DigitsValue(s[5..7]) == d.month
    ensures AllDigits(s[8..]) && DigitsValue(s[8..]) == d.day
  {
    var yyyy := ShowPadded(d.year, 4);
    var mm := ShowPadded(d.month, 2);
    var dd := ShowPadded(d.day, 2);
    ShowPaddedWidth(d.year, 4);
    ShowPaddedWidth(d.month, 2);
    ShowPaddedWidth(d.day, 2);
    var s := yyyy + "-" + mm + "-" + dd;
    assert s[..4] == yyyy && s[5..7] == mm && s[8..] == dd;
    s
  }

  // ---------------------------------------------------------------------------
  // The ordinal count

  /** Each year adds its own length to the days before the next one. */
  lemma DaysBeforeYearStep(y: int)
    requires y >= 1
    ensures DaysBeforeYear(y + 1) == DaysBeforeYear(y) + DaysInYear(y)
  {
    NextQuotients(y - 1);
  }

  /** Counting one more number adds one multiple of 4, 100 or 400 exactly when it is one. */
  lemma NextQuotients(p: int)
    requires p >= 0
    ensures (p + 1) / 4 == p / 4 + (if (p + 1) % 4 == 0 then 1 else 0)
    ensures (p + 1) / 100 == p / 100 + (if (p + 1) % 100 == 0 then 1 else 0)
    ensures (p + 1) / 400 == p / 400 + (if (p + 1) % 400 == 0 then 1 else 0)
  {
  }

  /** Whole years before `y'` include year `y` and everything before it. */
  lemma {:induction false} DaysBeforeYearGrows(y: int, y': int)
    requires 1 <= y < y'
    ensures DaysBeforeYear(y) + DaysInYear(y) <= DaysBeforeYear(y')
  {
    DaysBeforeYearStep(y' - 1);
    if y < y' - 1 {
      DaysBeforeYearGrows(y, y' - 1);
    }
  }

  lemma DaysBeforeMonthStep(y: int, m: int)
    requires 1 <= m < 12
    ensures DaysBeforeMonth(y, m + 1) == DaysBeforeMonth(y, m) + DaysInMonth(y, m)
  {
  }

  lemma DaysBeforeMonthLast(y: int)
    ensures DaysBeforeMonth(y, 12) + DaysInMonth(y, 12) == DaysInYear(y)
  {
  }

  lemma {:induction false} DaysBeforeMonthGrows(y: int, m: int, m': int)
    requires 1 <= m < m' <= 12
    ensures DaysBeforeMonth(y, m) + DaysInMonth(y, m) <= DaysBeforeMonth(y, m')
  {
    DaysBeforeMonthStep(y, m' - 1);
    if m < m' - 1 {
      DaysBeforeMonthGrows(y, m, m' - 1);
    }
  }

  /** Comparing dates field by field is comparing their ordinals. */
  lemma BeforeIffOrdinal(a: Date, b: Date)
    requires Valid(a) && Valid(b)
    ensures Before(a, b) <==> ToOrdinal(a) < ToOrdinal(b)
  {
    if a.year < b.year {
      DaysBeforeYearGrows(a.year, b.year);
    } else if b.year < a.year {
      DaysBeforeYearGrows(b.year, a.year);
    } else if a.month < b.month {
      DaysBeforeMonthGrows(a.year, a.month, b.month);
    } else if b.month < a.month {
      DaysBeforeMonthGrows(a.year, b.month, a.month);
    }
  }

  /** Two valid dates with the same ordinal are the same date. */
  lemma OrdinalInjective(a: Date, b: Date)
    requires Valid(a) && Valid(b)
    ensures ToOrdinal(a) == ToOrdinal(b) <==> a == b
  {
    BeforeIffOrdinal(a, b);
    BeforeIffOrdinal(b, a);
  }

  /** Every valid date lies between `date.min` and `date.max`, whose ordinals are 1 and 3652059. */
  lemma OrdinalRange(d: Date)
    requires Valid(d)
    ensures 1 <= ToOrdinal(d) <= MaxOrdinal
  {
    MaxOrdinalValue();
    BeforeIffOrdinal(MaxDate, d);
  }

  /** Date comparison is a total order: of two valid dates, exactly one is earlier or they are equal. */
  lemma BeforeTotal(a: Date, b: Date)
    requires Valid(a) && Valid(b)
    ensures Before(a, b) || a == b || Before(b, a)
    ensures !(Before(a, b) && Before(b, a)) && !Before(a, a)
  {
    BeforeIffOrdinal(a, b);
    BeforeIffOrdinal(b, a);
    OrdinalInjective(a, b);
  }

  /** No valid date comes after `date.max`. */
  lemma MaxDateIsLast(d: Date)
    requires Valid(d)
    ensures !Before(MaxDate, d)
  {
    MaxOrdinalValue();
    OrdinalRange(d);
    BeforeIffOrdinal(MaxDate, d);
  }

  lemma MinOrdinalValue()
    ensures ToOrdinal(Date(1, 1, 1)) == 1
  {
  }

  lemma MaxOrdinalValue()
    ensures Valid(MaxDate) && ToOrdinal(MaxDate) == MaxOrdinal
  {
  }

  // ---------------------------------------------------------------------------
  // The next day

  /**
    Adding one day: below `date.max` the successor is a valid date one ordinal
    further on; at `date.max` there is no valid date left, which is where Python
    raises `OverflowError`.
   */
  lemma SuccStep(d: Date)
    requires Valid(d)
    ensures d != MaxDate <==> Valid(Succ(d))
    ensures d != MaxDate ==> ToOrdinal(Succ(d)) == ToOrdinal(d) + 1 && Before(d, Succ(d))
  {
    if d.day == DaysInMonth(d.year, d.month) {
      if d.month < 12 {
        DaysBeforeMonthStep(d.year, d.month);
      } else if d.year < MaxYear {
        DaysBeforeYearStep(d.year);
        DaysBeforeMonthLast(d.year);
      }
    }
  }

  /** `Succ` is `+ timedelta(days=1)`: the one valid date whose ordinal is one more. */
  lemma SuccIsNextOrdinal(d: Date, e: Date)
    requires Valid(d) && Valid(e) && d != MaxDate
    ensures e == Succ(d) <==> ToOrdinal(e) == ToOrdinal(d) + 1
  {
    SuccStep(d);
    OrdinalInjective(e, Succ(d));
  }

  /** Rolling over from the last of February: to the 29th in a leap year, to March otherwise. */
  lemma SuccFebruary(y: int)
    requires MinYear <= y <= MaxYear
    ensures IsLeapYear(y) ==> Succ(Date(y, 2, 28)) == Date(y, 2, 29) && Succ(Date(y, 2, 29)) == Date(y, 3, 1)
    ensures !IsLeapYear(y) ==> Succ(Date(y, 2, 28)) == Date(y, 3, 1) && !Valid(Date(y, 2, 29))
  {
  }

  /** The weekday advances by one, modulo seven, from each day to the next. */
  lemma WeekdaySucc(d: Date)
    requires Valid(d) && d != MaxDate
    ensures Valid(Succ(d)) && Weekday(Succ(d)) == (Weekday(d) + 1) % 7
  {
    SuccStep(d);
    ModSevenStep(ToOrdinal(d) + 6);
  }

  lemma ModSevenStep(n: int)
    ensures (n + 1) % 7 == (n % 7 + 1) % 7
  {
  }

  /** 0001-01-01 was a Monday, and so was 2025-09-08, the default start date. */
  lemma WeekdayExamples()
    ensures Weekday(Date(1, 1, 1)) == 0
    ensures Weekday(Date(2025, 9, 8)) == 0
  {
  }
}
