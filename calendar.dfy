/**
 * The proleptic Gregorian calendar of Python's `datetime.date`: day numbers
 * (`toordinal`), weekdays, the previous day, and the two text forms the core
 * reads and writes, `dd/mm/YYYY` (`strptime`/`strftime("%d/%m/%Y")`) and
 * `YYYY-MM-DD`.
 */
module Calendar {
  import opened Json
  import opened Digits

  datatype Date = Date(year: int, month: int, day: int)

  predicate IsLeapYear(y: int)
  {
    y % 4 == 0 && (y % 100 != 0 || y % 400 == 0)
  }

  function DaysInMonth(y: int, m: int): (n: int)
    ensures 28 <= n <= 31
  {
    if m == 2 then (if IsLeapYear(y) then 29 else 28)
    else if m == 4 || m == 6 || m == 9 || m == 11 then 30
    else 31
  }

  function DaysInYear(y: int): int
  {
    if IsLeapYear(y) then 366 else 365
  }

  /** A real calendar day, in any year of the proleptic calendar. */
  predicate ValidDate(d: Date)
  {
    1 <= d.month <= 12 && 1 <= d.day <= DaysInMonth(d.year, d.month)
  }

  /** A day Python's `datetime` can hold (years 1 to 9999). */
  predicate InRange(d: Date)
  {
    ValidDate(d) && 1 <= d.year <= 9999
  }

  const MIN_DATE := Date(1, 1, 1)

  /** Days in the years before year y; 0 for year 1, as in Python's `_days_before_year`. */
  function DaysBeforeYear(y: int): int
  {
    var x := y - 1;
    365 * x + x / 4 - x / 100 + x / 400
  }

  const DAYS_BEFORE_MONTH: seq<int> := [0, 31, 59, 90, 120, 151, 181, 212, 243, 273, 304, 334]

  /** Days in year y before the first of month m (0 outside 1..12). */
  function DaysBeforeMonth(y: int, m: int): int
  {
    if 1 <= m <= 12 then DAYS_BEFORE_MONTH[m - 1] + (if m > 2 && IsLeapYear(y) then 1 else 0) else 0
  }

  /** Python's `date.toordinal()`: 0001-01-01 is day 1. */
  function Ordinal(d: Date): int
  {
    DaysBeforeYear(d.year) + DaysBeforeMonth(d.year, d.month) + d.day
  }

  /** Python's `date.weekday()`: Monday is 0, Saturday 5, Sunday 6. */
  function Weekday(d: Date): (w: int)
    ensures 0 <= w < 7
  {
    (Ordinal(d) + 6) % 7
  }

  /** Floor division by k grows by one exactly at the multiples of k (for the leap-year divisors). */
  lemma DivStep(x: int, k: int)
    requires k == 4 || k == 100 || k == 400
    ensures x / k - (x - 1) / k == if x % k == 0 then 1 else 0
  {
  }

  /** Consecutive years are DaysInYear apart. */
  lemma YearStep(y: int)
    ensures DaysBeforeYear(y + 1) == DaysBeforeYear(y) + DaysInYear(y)
  {
    DivStep(y, 4);
    DivStep(y, 100);
    DivStep(y, 400);
  }

  /** `d - timedelta(days=1)`, on the proleptic calendar. */
  function Prev(d: Date): (p: Date)
    requires ValidDate(d)
    ensures ValidDate(p) && Ordinal(p) == Ordinal(d) - 1
  {
    if d.day > 1 then Date(d.year, d.month, d.day - 1)
    else if d.month > 1 then Date(d.year, d.month - 1, DaysInMonth(d.year, d.month - 1))
    else YearStep(d.year - 1); Date(d.year - 1, 12, 31)
  }

  /** Shifting a day number by n shifts its weekday by n, modulo 7. */
  lemma WeekdayShift(o: int, n: int)
    ensures (o + n + 6) % 7 == ((o + 6) % 7 + n) % 7
  {
  }

  /** The weekday of a day, from the weekday of the first of its month. */
  lemma WeekdayInMonth(d: Date)
    requires ValidDate(d)
    ensures Weekday(d) == (Weekday(Date(d.year, d.month, 1)) + d.day - 1) % 7
  {
    WeekdayShift(Ordinal(Date(d.year, d.month, 1)), d.day - 1);
  }

  /** The position of a day in its year lies within the year. */
  lemma DayOfYearBounds(d: Date)
    requires ValidDate(d)
    ensures 1 <= DaysBeforeMonth(d.year, d.month) + d.day <= DaysInYear(d.year)
  {
  }

  /** Later years start later. */
  lemma {:induction false} DaysBeforeYearMonotone(a: int, b: int)
    requires a <= b
    ensures DaysBeforeYear(a) + DaysInYear(a) * (if a < b then 1 else 0) <= DaysBeforeYear(b)
    decreases b - a
  {
    if a < b {
      YearStep(a);
      if a + 1 < b {
        DaysBeforeYearMonotone(a + 1, b);
      }
    }
  }

  /** Within one year, a later month starts after every day of an earlier one. */
  lemma MonthOrder(y: int, m: int, n: int, day: int)
    requires 1 <= m < n <= 12 && 1 <= day <= DaysInMonth(y, m)
    ensures DaysBeforeMonth(y, m) + day <= DaysBeforeMonth(y, n)
  {
  }

  /** Distinct days have distinct day numbers. */
  lemma OrdinalInjective(a: Date, b: Date)
    requires ValidDate(a) && ValidDate(b) && Ordinal(a) == Ordinal(b)
    ensures a == b
  {
    DayOfYearBounds(a);
    DayOfYearBounds(b);
    if a.year < b.year {
      DaysBeforeYearMonotone(a.year, b.year);
      assert false;
    } else if b.year < a.year {
      DaysBeforeYearMonotone(b.year, a.year);
      assert false;
    }
    if a.month < b.month {
      MonthOrder(a.year, a.month, b.month, a.day);
      assert false;
    } else if b.month < a.month {
      MonthOrder(b.year, b.month, a.month, b.day);
      assert false;
    }
  }

  /** Every day Python can hold has a positive day number, and days before year 1 do not. */
  lemma OrdinalPositive(d: Date)
    requires ValidDate(d)
    ensures Ordinal(d) >= 1 <==> d.year >= 1
  {
    DayOfYearBounds(d);
    if d.year >= 1 {
      DaysBeforeYearMonotone(1, d.year);
    } else {
      DaysBeforeYearMonotone(d.year, 0);
      YearStep(0);
    }
  }

  /** Ordering days by number orders their years. */
  lemma OrdinalOrdersYears(a: Date, b: Date)
    requires ValidDate(a) && ValidDate(b) && Ordinal(a) <= Ordinal(b)
    ensures a.year <= b.year
  {
    DayOfYearBounds(a);
    DayOfYearBounds(b);
    if b.year < a.year {
      DaysBeforeYearMonotone(b.year, a.year);
    }
  }

  // ---------------------------------------------------------------------
  // Text forms

  /** `strftime("%d/%m/%Y")`. */
  function FormatDMY(d: Date): (s: string)
    requires InRange(d)
    ensures |s| == 10 && s[2] == '/' && s[5] == '/'
  {
    Padded(d.day, 2) + "/" + Padded(d.month, 2) + "/" + Padded(d.year, 4)
  }

  /**
   * `%d`, `%m` and `%Y` are zero-padded: every field of the `dd/mm/YYYY`
   * text is made of digits, never of blanks.
   */
  lemma FormatDMYDigits(d: Date)
    requires InRange(d)
    ensures var s := FormatDMY(d);
      AllDigits(s[..2]) && AllDigits(s[3..5]) && AllDigits(s[6..])
  {
  }

  /** `strftime("%Y-%m-%d")`. */
  function FormatISO(d: Date): (s: string)
    requires InRange(d)
    ensures |s| == 10 && s[4] == '-' && s[7] == '-'
  {
    Padded(d.year, 4) + "-" + Padded(d.month, 2) + "-" + Padded(d.day, 2)
  }

  predicate NonZeroDigit(c: char)
  {
    '1' <= c <= '9'
  }

  /** Text matched by strptime's `%d`: `3[01]|[12]\d|0[1-9]|[1-9]| [1-9]`. */
  predicate DayField(t: string)
  {
    || (|t| == 1 && NonZeroDigit(t[0]))
    || (|t| == 2 && t[0] == ' ' && NonZeroDigit(t[1]))
    || (|t| == 2 && t[0] == '0' && NonZeroDigit(t[1]))
    || (|t| == 2 && (t[0] == '1' || t[0] == '2') && IsDigit(t[1]))
    || (|t| == 2 && t[0] == '3' && (t[1] == '0' || t[1] == '1'))
  }

  /** Text matched by strptime's `%m`: `1[0-2]|0[1-9]|[1-9]`. */
  predicate MonthField(t: string)
  {
    || (|t| == 1 && NonZeroDigit(t[0]))
    || (|t| == 2 && t[0] == '0' && NonZeroDigit(t[1]))
    || (|t| == 2 && t[0] == '1' && '0' <= t[1] <= '2')
  }

  /** Python's `int(t)` on a day or month field (a leading blank is ignored). */
  function FieldValue(t: string): nat
    requires DayField(t) || MonthField(t)
  {
    if t[0] == ' ' then DigitValue(t[1]) else ParseDigits(t)
  }

  /**
   * The day, month and year fields of s when s splits as
   * day "/" month "/" year with a day field of dl characters and a month
   * field of ml characters, and nothing is left over.
   */
  function SplitDMY(s: string, dl: nat, ml: nat): Option<Date>
  {
    if |s| == dl + ml + 6 && s[dl] == '/' && s[dl + 1 + ml] == '/'
       && DayField(s[..dl]) && MonthField(s[dl + 1..dl + 1 + ml]) && AllDigits(s[dl + ml + 2..])
    then Some(Date(ParseDigits(s[dl + ml + 2..]), FieldValue(s[dl + 1..dl + 1 + ml]), FieldValue(s[..dl])))
    else None
  }

  /**
   * `datetime.strptime(s, "%d/%m/%Y")`: a ValueError unless s is a day
   * field, '/', a month field, '/', four digits, and names a real day of
   * years 1..9999.
   */
  function ParseDMY(s: string): (r: Result<Date>)
    ensures r.Ok? ==> InRange(r.value)
    ensures r.Err? ==> r.error == ValueError(BadDate)
  {
    var split :=
      if SplitDMY(s, 2, 2).Some? then SplitDMY(s, 2, 2)
      else if SplitDMY(s, 2, 1).Some? then SplitDMY(s, 2, 1)
      else if SplitDMY(s, 1, 2).Some? then SplitDMY(s, 1, 2)
      else SplitDMY(s, 1, 1);
    if split.Some? && InRange(split.value) then Ok(split.value) else Err(ValueError(BadDate))
  }

  /** `pd.Timestamp(s)` for the `YYYY-MM-DD` texts of the holiday calendar. */
  function ParseISO(s: string): (r: Result<Date>)
    ensures r.Ok? ==> InRange(r.value)
    ensures r.Err? ==> r.error == ValueError(BadDate)
  {
    if |s| == 10 && s[4] == '-' && s[7] == '-'
       && AllDigits(s[..4]) && AllDigits(s[5..7]) && AllDigits(s[8..])
       && InRange(Date(ParseDigits(s[..4]), ParseDigits(s[5..7]), ParseDigits(s[8..])))
    then Ok(Date(ParseDigits(s[..4]), ParseDigits(s[5..7]), ParseDigits(s[8..])))
    else Err(ValueError(BadDate))
  }

  /** Two-digit rendering spelled out. */
  lemma TwoDigits(n: nat)
    requires n < 100
    ensures Padded(n, 2) == [DigitChar(n / 10), DigitChar(n % 10)]
  {
    assert Padded(n / 10, 1) == [DigitChar(n / 10)];
  }

  /** Formatting a day as `dd/mm/YYYY` and parsing it back gives the day. */
  lemma ParseFormatDMY(d: Date)
    requires InRange(d)
    ensures ParseDMY(FormatDMY(d)) == Ok(d)
  {
    var s := FormatDMY(d);
    TwoDigits(d.day);
    TwoDigits(d.month);
    ParsePadded(d.day, 2);
    ParsePadded(d.month, 2);
    ParsePadded(d.year, 4);
    assert s[..2] == Padded(d.day, 2);
    assert s[3..5] == Padded(d.month, 2);
    assert s[6..] == Padded(d.year, 4);
    assert SplitDMY(s, 2, 2) == Some(d);
  }

  /** Formatting a day as `YYYY-MM-DD` and parsing it back gives the day. */
  lemma ParseFormatISO(d: Date)
    requires InRange(d)
    ensures ParseISO(FormatISO(d)) == Ok(d)
  {
    var s := FormatISO(d);
    ParsePadded(d.day, 2);
    ParsePadded(d.month, 2);
    ParsePadded(d.year, 4);
    assert s[..4] == Padded(d.year, 4);
    assert s[5..7] == Padded(d.month, 2);
    assert s[8..] == Padded(d.day, 2);
  }

  /**
   * `date.replace(year=date.year + 1)`: the same day and month one year
   * later, or a ValueError when that day does not exist (29 February) or
   * the year leaves Python's range.
   */
  function NextYear(d: Date): (r: Result<Date>)
    requires InRange(d)
    ensures r.Ok? <==> !(d.month == 2 && d.day == 29) && d.year < 9999
    ensures r.Ok? ==> r.value.year == d.year + 1 && r.value.month == d.month && r.value.day == d.day
    ensures r.Err? ==> r.error == ValueError(DateOutOfRange)
  {
    var n := Date(d.year + 1, d.month, d.day);
    if InRange(n) then Ok(n) else Err(ValueError(DateOutOfRange))
  }

  /** `strftime("%d/%m/%Y")` on Thursday 2025-11-13. */
  lemma FormatDMYExample()
    ensures FormatDMY(Date(2025, 11, 13)) == "13/11/2025"
  {
    assert Padded(2, 1) == "2";
    assert Padded(20, 2) == "20";
    assert Padded(202, 3) == "202";
    assert Padded(2025, 4) == "2025";
    assert Padded(13, 2) == "13";
    assert Padded(11, 2) == "11";
  }
}
