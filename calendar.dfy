/**
 * The calendar facts that the weekday counter takes from Python's `date`:
 * a date is a (year, month, day) triple of the proleptic Gregorian calendar
 * with the year in 1..9999, `toordinal` numbers the days from 0001-01-01 = 1,
 * `weekday` runs Monday = 0 .. Sunday = 6, and dates compare field by field.
 */
module Calendar {

  datatype Date = Date(year: int, month: int, day: int)

  /** Why a (year, month, day) triple is not a date. */
  datatype DateError = YearOutOfRange | MonthOutOfRange | DayOutOfRange

  datatype Result<T> = Ok(value: T) | Err(error: DateError)

  datatype Option<T> = None | Some(value: T)

  const MinYear: int := 1
  const MaxYear: int := 9999
  /** The ordinal of 9999-12-31, the last representable date. */
  const MaxOrdinal: int := 3652059

  /** Divisible by 4, except centuries not divisible by 400. */
  predicate IsLeapYear(year: int) {
    year % 4 == 0 && (year % 100 != 0 || year % 400 == 0)
  }

  function DaysInYear(year: int): int {
    if IsLeapYear(year) then 366 else 365
  }

  function DaysInMonth(year: int, month: int): (n: int)
    requires 1 <= month <= 12
    ensures 28 <= n <= 31
    ensures month == 2 ==> (n == 29 <==> IsLeapYear(year))
    ensures month != 2 ==> (n == 30 <==> month in {4, 6, 9, 11})
  {
    if month == 2 then (if IsLeapYear(year) then 29 else 28)
    else if month == 4 || month == 6 || month == 9 || month == 11 then 30
    else 31
  }

  /** A triple that names a real day. */
  predicate Valid(d: Date) {
    MinYear <= d.year <= MaxYear &&
    1 <= d.month <= 12 &&
    1 <= d.day <= DaysInMonth(d.year, d.month)
  }

  /** Constructing a date checks the year, then the month, then the day. */
  function MakeDate(year: int, month: int, day: int): (r: Result<Date>)
    ensures r.Ok? <==> Valid(Date(year, month, day))
    ensures r.Ok? ==> r.value == Date(year, month, day)
    ensures r == Err(YearOutOfRange) <==> !(MinYear <= year <= MaxYear)
    ensures r == Err(MonthOutOfRange) <==> MinYear <= year <= MaxYear && !(1 <= month <= 12)
  {
    if !(MinYear <= year <= MaxYear) then Err(YearOutOfRange)
    else if !(1 <= month <= 12) then Err(MonthOutOfRange)
    else if !(1 <= day <= DaysInMonth(year, month)) then Err(DayOutOfRange)
    else Ok(Date(year, month, day))
  }

  /** February never has a 30th, there is no 13th month and no month has a day 0. */
  lemma InvalidDates(year: int, month: int, day: int)
    requires MinYear <= year <= MaxYear && 1 <= month <= 12
    ensures MakeDate(year, 2, 30) == Err(DayOutOfRange)
    ensures MakeDate(year, 13, day) == Err(MonthOutOfRange)
    ensures MakeDate(year, month, 0) == Err(DayOutOfRange)
  {
  }

  // ----- days before a year -----

  /** Days in the years 1 .. year-1, in closed form (no loop over years). */
  function DaysBeforeYear(year: int): int
    requires year >= 1
  {
    var y := year - 1;
    y * 365 + y / 4 - y / 100 + y / 400
  }

  /** Reference definition: the same quantity, summed one year at a time. */
  function YearDaysSum(year: int): int
    requires year >= 1
  {
    if year == 1 then 0 else YearDaysSum(year - 1) + DaysInYear(year - 1)
  }

  /** Stepping a count up by one adds a whole quotient exactly at a multiple of 4, 100 and 400. */
  lemma QuotientSteps(y: int)
    requires y >= 0
    ensures (y + 1) / 4 == y / 4 + (if (y + 1) % 4 == 0 then 1 else 0)
    ensures (y + 1) / 100 == y / 100 + (if (y + 1) % 100 == 0 then 1 else 0)
    ensures (y + 1) / 400 == y / 400 + (if (y + 1) % 400 == 0 then 1 else 0)
  {
  }

  /** Moving one year on adds exactly that year's length. */
  lemma DaysBeforeYearStep(year: int)
    requires year >= 1
    ensures DaysBeforeYear(year + 1) == DaysBeforeYear(year) + DaysInYear(year)
  {
    QuotientSteps(year - 1);
  }

  /** The closed form agrees with the year-by-year sum. */
  lemma {:induction false} DaysBeforeYearIsSum(year: int)
    requires year >= 1
    ensures DaysBeforeYear(year) == YearDaysSum(year)
  {
    if year > 1 {
      DaysBeforeYearIsSum(year - 1);
      DaysBeforeYearStep(year - 1);
    }
  }

  /** Each year has at least 365 days, so the count grows at least that fast. */
  lemma {:induction false} DaysBeforeYearGrows(y1: int, y2: int)
    requires 1 <= y1 <= y2
    ensures DaysBeforeYear(y1) + 365 * (y2 - y1) <= DaysBeforeYear(y2)
  {
    if y1 < y2 {
      DaysBeforeYearGrows(y1, y2 - 1);
      DaysBeforeYearStep(y2 - 1);
    }
  }

  // ----- days before a month -----

  /** Days in the months 1 .. month-1 of the year: a table plus the leap day. */
  function DaysBeforeMonth(year: int, month: int): int
    requires 1 <= month <= 12
  {
    [0, 31, 59, 90, 120, 151, 181, 212, 243, 273, 304, 334][month - 1]
    + (if month > 2 && IsLeapYear(year) then 1 else 0)
  }

  /** The table is the running sum of the month lengths, ending at the year's length. */
  lemma DaysBeforeMonthStep(year: int, month: int)
    requires 1 <= month <= 12
    ensures DaysBeforeMonth(year, month) + DaysInMonth(year, month)
            == if month < 12 then DaysBeforeMonth(year, month + 1) else DaysInYear(year)
  {
  }

  /** A month ends no later than the days before a later month. */
  lemma {:induction false} DaysBeforeMonthGrows(year: int, m1: int, m2: int)
    requires 1 <= m1 < m2 <= 12
    ensures DaysBeforeMonth(year, m1) + DaysInMonth(year, m1) <= DaysBeforeMonth(year, m2)
    decreases m2 - m1
  {
    DaysBeforeMonthStep(year, m1);
    if m1 + 1 < m2 {
      DaysBeforeMonthGrows(year, m1 + 1, m2);
    }
  }

  /** The days of a date's year up to and including the date fit in that year. */
  lemma DayOfYearBound(d: Date)
    requires Valid(d)
    ensures DaysBeforeMonth(d.year, d.month) + d.day <= DaysInYear(d.year)
  {
    DaysBeforeMonthStep(d.year, d.month);
    if d.month < 12 {
      DaysBeforeMonthGrows(d.year, d.month, 12);
      DaysBeforeMonthStep(d.year, 12);
    }
  }

  // ----- ordinals and weekdays -----

  /** Python's `date.toordinal`: 0001-01-01 is day 1. */
  function Ordinal(d: Date): (o: int)
    requires Valid(d)
    ensures 1 <= o <= MaxOrdinal
  {
    DayOfYearBound(d);
    DaysBeforeYearStep(d.year);
    DaysBeforeYearGrows(d.year + 1, MaxYear + 1);
    DaysBeforeYearGrows(1, d.year);
    DaysBeforeYear(d.year) + DaysBeforeMonth(d.year, d.month) + d.day
  }

  /** The weekday index of an ordinal: ordinal 1 (0001-01-01) is a Monday. */
  function OrdinalWeekday(o: int): (w: int)
    ensures 0 <= w <= 6
  {
    (o - 1) % 7
  }

  /** The weekday index advances by one, modulo 7, from one ordinal to the next. */
  lemma OrdinalWeekdayNext(o: int)
    ensures OrdinalWeekday(o + 1) == (OrdinalWeekday(o) + 1) % 7
  {
  }

  /** The weekday index repeats every seven days. */
  lemma WeekdayPeriodic(o: int)
    ensures OrdinalWeekday(o + 7) == OrdinalWeekday(o)
  {
  }

  /** Python's `date.weekday`: Monday = 0 .. Sunday = 6. */
  function Weekday(d: Date): (w: int)
    requires Valid(d)
    ensures 0 <= w <= 6
  {
    OrdinalWeekday(Ordinal(d))
  }

  /** Monday to Friday. */
  predicate IsWeekday(d: Date)
    requires Valid(d)
    ensures IsWeekday(d) <==> Weekday(d) != 5 && Weekday(d) != 6
  {
    Weekday(d) < 5
  }

  /** Python compares dates as (year, month, day) tuples. */
  predicate Before(a: Date, b: Date)
    ensures Before(a, b) ==> a != b
    ensures a.year < b.year ==> Before(a, b)
    ensures b.year < a.year ==> !Before(a, b)
  {
    a.year < b.year ||
    (a.year == b.year && (a.month < b.month || (a.month == b.month && a.day < b.day)))
  }

  /** Comparison is a strict total order: exactly one of a < b, a == b, b < a holds. */
  lemma BeforeTotal(a: Date, b: Date)
    ensures Before(a, b) || a == b || Before(b, a)
    ensures !(Before(a, b) && Before(b, a))
  {
  }

  /** The day after `d`, or None after 9999-12-31 (Python raises OverflowError there). */
  function NextDay(d: Date): (r: Option<Date>)
    requires Valid(d)
    ensures r.Some? ==> Valid(r.value) && Before(d, r.value)
    ensures r.None? <==> d == Date(MaxYear, 12, 31)
  {
    if d.day < DaysInMonth(d.year, d.month) then Some(Date(d.year, d.month, d.day + 1))
    else if d.month < 12 then Some(Date(d.year, d.month + 1, 1))
    else if d.year < MaxYear then Some(Date(d.year + 1, 1, 1))
    else None
  }

  /** Comparing dates field by field is comparing their ordinals. */
  lemma OrdinalIncreasing(a: Date, b: Date)
    requires Valid(a) && Valid(b) && Before(a, b)
    ensures Ordinal(a) < Ordinal(b)
  {
    if a.year < b.year {
      DayOfYearBound(a);
      DaysBeforeYearStep(a.year);
      DaysBeforeYearGrows(a.year + 1, b.year);
    } else if a.month < b.month {
      DaysBeforeMonthGrows(a.year, a.month, b.month);
    }
  }

  /** Both directions: order and equality of dates are order and equality of ordinals. */
  lemma OrdinalOrder(a: Date, b: Date)
    requires Valid(a) && Valid(b)
    ensures Before(a, b) <==> Ordinal(a) < Ordinal(b)
    ensures a == b <==> Ordinal(a) == Ordinal(b)
  {
    if Before(a, b) {
      OrdinalIncreasing(a, b);
    } else if Before(b, a) {
      OrdinalIncreasing(b, a);
    }
  }

  /** Ordinals have no gaps: the next day is the next ordinal. */
  lemma NextDayOrdinal(d: Date)
    requires Valid(d) && NextDay(d).Some?
    ensures Ordinal(NextDay(d).value) == Ordinal(d) + 1
  {
    DaysBeforeMonthStep(d.year, d.month);
    if d.day == DaysInMonth(d.year, d.month) && d.month == 12 {
      DaysBeforeYearStep(d.year);
    }
  }

  /** Weekdays cycle through 0 .. 6 from one day to the next. */
  lemma NextDayWeekday(d: Date)
    requires Valid(d) && NextDay(d).Some?
    ensures Weekday(NextDay(d).value) == (Weekday(d) + 1) % 7
  {
    NextDayOrdinal(d);
    OrdinalWeekdayNext(Ordinal(d));
  }

  /** Fixed points of the proleptic Gregorian ordinal numbering. */
  lemma FirstDay()
    ensures Ordinal(Date(1, 1, 1)) == 1
  {
  }

  lemma FirstDayIsMonday()
    ensures Weekday(Date(1, 1, 1)) == 0
  {
    FirstDay();
  }

  lemma Y2000()
    ensures Ordinal(Date(2000, 1, 1)) == 730120 && IsLeapYear(2000)
  {
  }

  lemma LastDay()
    ensures Ordinal(Date(MaxYear, 12, 31)) == MaxOrdinal
  {
  }

  lemma Leaps()
    ensures !IsLeapYear(1900) && !Valid(Date(1900, 2, 29)) && Valid(Date(2000, 2, 29))
  {
  }

  /** 2023-01-02 is a Monday and 2023-01-07 a Saturday. */
  lemma FirstWeek2023()
    ensures Weekday(Date(2023, 1, 2)) == 0
    ensures Weekday(Date(2023, 1, 7)) == 5
  {
    assert Ordinal(Date(2023, 1, 2)) == 738522;
    assert Ordinal(Date(2023, 1, 7)) == 738527;
  }
}
