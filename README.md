# Weekdays between two dates

A Dafny model of `date_solver/date_solver.py`, a small program that counts
the weekdays (Monday to Friday) between two calendar dates, both ends
included, in either order.

The program works on Python `date` values. `weekdays_between` returns 1 or 0
at once when both dates are the same day. Otherwise it works in four steps:

1. It sorts the two dates.
2. It takes the weekday of the earlier one.
3. It takes the inclusive day count from the two `toordinal()` values
   (`days_between_inclusive`).
4. It counts five weekdays per whole week. Then a loop scans the 0 to 6
   leftover days by weekday index.

The model has two modules:

- `Calendar` (`calendar.dfy`) holds the parts of Python's `date` that the
  counter relies on:
  - the proleptic Gregorian calendar over the years 1 to 9999;
  - date construction with its error cases;
  - `toordinal`, with 0001-01-01 = 1, written as days before the year plus
    days before the month plus the day;
  - `weekday`, with Monday = 0;
  - field-by-field comparison of dates.

  Its lemmas prove what the counter relies on:
  - the closed form for the days before a year equals the year-by-year sum;
  - ordinals order dates the same way as field-by-field comparison;
  - the next day has the next ordinal, so the weekday index advances by one.

- `DateSolver` (`date_solver.dfy`) holds the counter.
  - `days_between_inclusive` and the sort are functions.
  - `weekdays_between` is a method with the source's loop.
  - The method is proved against `WeekdaysInclusive`, a brute-force count of
    the weekday ordinals between the two dates.
  - Lemmas prove the rest: the closed form (whole weeks plus leftover days),
    symmetry, the same-day case, the bounds on the result and the
    seven-day property.
  - Lemmas also fix the regression values:
    - 2023-01-01 alone: 0;
    - 2023-01-01 to 2023-01-02: 1;
    - January 2023: 22;
    - 2020-01-01 to 2021-01-01: 263;
    - 0001-01-01 to 9999-12-31: 2608615.

The 2020-01-01 to 2021-01-01 range has 367 days. Counting only the days of
2020 would give 262; the inclusive count also takes in Friday 2021-01-01, so
the code returns 263. The model follows the code.

## Model

| member | source | states |
|---|---|---|
| `Calendar.MakeDate` | date_solver/date_solver.py:4 | a triple becomes a date exactly when it is valid (year 1..9999, month 1..12, day within the month's length); otherwise it is rejected, with the year checked first, then the month, then the day |
| `Calendar.InvalidDates` | date_solver/date_solver.py:4 | February 30, month 13 and day 0 are rejected in every year |
| `Calendar.DaysInMonth` | date_solver/date_solver.py:4 | every month has 28 to 31 days. February has 29 exactly in leap years. Among the other months, exactly April, June, September and November have 30 |
| `Calendar.DaysBeforeYearStep` | date_solver/date_solver.py:31-34 | the closed-form count of days before a year grows by exactly that year's length from one year to the next |
| `Calendar.DaysBeforeYearIsSum` | date_solver/date_solver.py:31-34 | the closed form equals the year-by-year sum of 365/366-day years |
| `Calendar.DaysBeforeYearGrows` | date_solver/date_solver.py:31-34 | each year adds at least 365 days |
| `Calendar.DaysBeforeMonthStep` | date_solver/date_solver.py:31-34 | the days-before-month table is the running sum of the month lengths and ends at the year's length |
| `Calendar.DaysBeforeMonthGrows` | date_solver/date_solver.py:31-34 | a month ends no later than the start of any later month |
| `Calendar.DayOfYearBound` | date_solver/date_solver.py:31-34 | a date's day within its year never passes the year's length |
| `Calendar.Ordinal` | date_solver/date_solver.py:31-34 | `toordinal` of every valid date lies in 1..3652059 |
| `Calendar.OrdinalWeekday` | date_solver/date_solver.py:13 | the weekday index is in 0..6 |
| `Calendar.Weekday` | date_solver/date_solver.py:10-13 | `date.weekday()` is the weekday index of the date's ordinal, Monday = 0, and always lies in 0..6 |
| `Calendar.IsWeekday` | date_solver/date_solver.py:10 | the `< 5` test holds exactly when the day is neither Saturday (5) nor Sunday (6) |
| `Calendar.Before` | date_solver/date_solver.py:12 | the date `<` that `sorted` uses compares year, then month, then day; it is irreflexive, and an earlier year decides it |
| `Calendar.BeforeTotal` | date_solver/date_solver.py:12 | date comparison is a strict total order: exactly one of a < b, a == b, b < a holds |
| `Calendar.OrdinalWeekdayNext` | date_solver/date_solver.py:25 | from one ordinal to the next, the weekday index advances by one modulo 7 |
| `Calendar.WeekdayPeriodic` | date_solver/date_solver.py:25 | the weekday index repeats every 7 ordinals |
| `Calendar.NextDay` | date_solver/date_solver.py:31 | the following day is a valid, later date, and only 9999-12-31 has none |
| `Calendar.OrdinalIncreasing` | date_solver/date_solver.py:12 | a date that compares earlier has a smaller ordinal |
| `Calendar.OrdinalOrder` | date_solver/date_solver.py:12 | field-by-field order is ordinal order, and date equality is ordinal equality (both directions) |
| `Calendar.NextDayOrdinal` | date_solver/date_solver.py:31 | ordinals have no gaps: the next day's ordinal is one more |
| `Calendar.NextDayWeekday` | date_solver/date_solver.py:25 | the next day's weekday is this day's weekday plus one, modulo 7 |
| `Calendar.FirstDay` | date_solver/date_solver.py:31 | 0001-01-01 has ordinal 1 |
| `Calendar.FirstDayIsMonday` | date_solver/date_solver.py:13 | 0001-01-01 is a Monday (weekday 0) |
| `Calendar.Y2000` | date_solver/date_solver.py:31 | 2000-01-01 has ordinal 730120, and 2000 is a leap year |
| `Calendar.LastDay` | date_solver/date_solver.py:4 | 9999-12-31 has ordinal 3652059 |
| `Calendar.Leaps` | date_solver/date_solver.py:4 | 1900 is not a leap year, so 1900-02-29 is not a date, while 2000-02-29 is |
| `Calendar.FirstWeek2023` | date_solver/date_solver.py:13 | 2023-01-02 is a Monday and 2023-01-07 a Saturday |
| `DateSolver.CountWeekdays` | date_solver/date_solver.py:6-7 | the brute-force count over an ordinal range never exceeds the number of days in it |
| `DateSolver.WeekdaysInclusive` | date_solver/date_solver.py:6 | what the counter must return: the number of Monday-to-Friday days from the earlier to the later date, both included, in either argument order; never more than the number of days in the range |
| `DateSolver.ExtraWeekdays` | date_solver/date_solver.py:24-27 | the running count the loop builds after i leftover days: how many of (start weekday + j) % 7 for j < i are below 5; never more than i |
| `DateSolver.CountSplit` | date_solver/date_solver.py:16 | the count over a range is the sum of the counts over two adjacent parts |
| `DateSolver.WeekShift` | date_solver/date_solver.py:16-21 | moving a seven-day window by one day does not change its count |
| `DateSolver.FullWeek` | date_solver/date_solver.py:20-21 | any seven consecutive days hold exactly 5 weekdays, whatever day they start on |
| `DateSolver.FullWeeks` | date_solver/date_solver.py:17-21 | k whole weeks hold 5 * k weekdays |
| `DateSolver.ClosedForm` | date_solver/date_solver.py:16-21 | the count over a span is (span // 7) * 5 plus the count over its first span % 7 days |
| `DateSolver.LeftoverBound` | date_solver/date_solver.py:23 | fewer than seven consecutive days hold at most 5 weekdays |
| `DateSolver.WeekdayOffset` | date_solver/date_solver.py:25 | (start weekday + i) % 7 is the weekday of the day i days later |
| `DateSolver.ExtraWeekdaysCount` | date_solver/date_solver.py:23-27 | scanning the leftover days by weekday index counts exactly the weekdays among them |
| `DateSolver.SortDates` | date_solver/date_solver.py:12 | sorting returns the two dates in some order, the earlier one first by both comparison and ordinal |
| `DateSolver.DaysBetweenInclusive` | date_solver/date_solver.py:32-35 | the inclusive day count is at least 1 exactly when the dates are in order, is 1 exactly when they are the same day, and never exceeds 3652059 |
| `DateSolver.WeekdaysBetween` | date_solver/date_solver.py:7-29 | for dates in any order, the result is the number of Monday-to-Friday days from the earlier to the later date, both included. For a single day it is 1 on a weekday and 0 otherwise. The loop invariant says the count so far is the whole weeks' weekdays plus the weekdays among the first i leftover days |
| `DateSolver.SortDatesSymmetric` | date_solver/date_solver.py:12 | sorting does not depend on the order of the arguments |
| `DateSolver.WeekdaysInclusiveSymmetric` | date_solver/date_solver.py:12 | the count does not depend on the order of the two dates |
| `DateSolver.SingleDay` | date_solver/date_solver.py:9-10 | a single day counts 1 when it falls Monday to Friday and 0 otherwise |
| `DateSolver.SameDayShortcut` | date_solver/date_solver.py:9-27 | the general path, run on a single day, gives the value of the same-day shortcut |
| `DateSolver.WeekdaysBetweenBounds` | date_solver/date_solver.py:17-27 | with span the inclusive day count: span >= 1, (span // 7) * 5 <= result <= (span // 7) * 5 + min(span % 7, 5), and result <= span |
| `DateSolver.DaysBetweenInclusiveNext` | date_solver/date_solver.py:32-35 | extending the range by one day adds one to the inclusive day count |
| `DateSolver.SevenConsecutiveDays` | date_solver/date_solver.py:20-21 | any two dates 7 days apart inclusive hold exactly 5 weekdays |
| `DateSolver.WeekdaysInclusiveClosedForm` | date_solver/date_solver.py:12-27 | the brute-force count equals five per whole week of the sorted span plus the leftover days scanned from the earlier date's weekday |
| `DateSolver.RangeClosedForm` | date_solver/date_solver.py:16-27 | the same closed form over any ordinal range lo..hi |
| `DateSolver.NewYear2023` | date_solver/date_solver.py:7-29 | 2023-01-01 alone counts 0, and 2023-01-01 to 2023-01-02 counts 1 |
| `DateSolver.January2023` | date_solver/date_solver.py:7-29 | 2023-01-01 to 2023-01-31 counts 22 |
| `DateSolver.Year2020` | date_solver/date_solver.py:7-35 | 2020-01-01 to 2021-01-01 spans 367 days and counts 263 |
| `DateSolver.WholeRange` | date_solver/date_solver.py:4-35 | 0001-01-01 to 9999-12-31 spans 3652059 days and counts 2608615 |

## Left out

- `parse_date` (date_solver/date_solver.py:38-43) is not modelled. It parses
  command-line text with `strptime`, prints an error and exits the process,
  which is all I/O. `Calendar.MakeDate` models only the date validation it
  relies on.
- `main` and the `__main__` guard (date_solver/date_solver.py:46-60) read
  `sys.argv`, print and exit. They are not modelled.
- Python's `date` is modelled as a (year, month, day) value, with the
  proleptic Gregorian rules that `toordinal` and `weekday` follow. Other
  `datetime` features (times, time zones, arithmetic with `timedelta`) are
  not part of this model.
- `Calendar.NextDay`: returns `None` after 9999-12-31, where Python raises
  `OverflowError`. The counter itself never steps past a date.
- The regression lemmas take their dates as parameters fixed by their
  `requires` clause. Without this, the verifier would evaluate the day-by-day
  count one day at a time over literal ranges. Each of these lemmas states
  its value for exactly the dates named in its `requires`.
