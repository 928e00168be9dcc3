/**
 * The inclusive weekday counter: how many Monday-to-Friday days lie between
 * two dates, both ends included. It orders the two dates, takes the inclusive
 * span from their ordinals, counts five weekdays per whole week and scans the
 * 0 to 6 leftover days one by one.
 */
module DateSolver {
  import opened Calendar

  // ----- the specification: a day-by-day count over ordinals -----

  /** The day with this ordinal falls on Monday to Friday. */
  predicate IsWeekdayOrdinal(o: int) {
    OrdinalWeekday(o) < 5
  }

  /** Brute force: the number of ordinals o with lo <= o <= hi that are weekdays. */
  function CountWeekdays(lo: int, hi: int): (n: nat)
    ensures n <= if hi < lo then 0 else hi - lo + 1
    decreases hi - lo + 1
  {
    if hi < lo then 0
    else CountWeekdays(lo, hi - 1) + (if IsWeekdayOrdinal(hi) then 1 else 0)
  }

  /** What the counter must answer: the weekdays among the days between the two dates. */
  function WeekdaysInclusive(a: Date, b: Date): (n: nat)
    requires Valid(a) && Valid(b)
    ensures n <= if Ordinal(a) <= Ordinal(b) then Ordinal(b) - Ordinal(a) + 1 else Ordinal(a) - Ordinal(b) + 1
  {
    var lo := if Ordinal(a) <= Ordinal(b) then Ordinal(a) else Ordinal(b);
    var hi := if Ordinal(a) <= Ordinal(b) then Ordinal(b) else Ordinal(a);
    CountWeekdays(lo, hi)
  }

  /**
   * The leftover scan: how many of the days j = 0 .. i-1 after a day with
   * weekday index startWeekday are weekdays, i.e. (startWeekday + j) % 7 < 5.
   */
  function ExtraWeekdays(startWeekday: int, i: int): (n: nat)
    ensures n <= if i <= 0 then 0 else i
    decreases i
  {
    if i <= 0 then 0
    else ExtraWeekdays(startWeekday, i - 1) + (if (startWeekday + i - 1) % 7 < 5 then 1 else 0)
  }

  // ----- lemmas about the day-by-day count -----

  /** A range of ordinals splits into two adjacent ranges. */
  lemma {:induction false} CountSplit(lo: int, mid: int, hi: int)
    requires lo <= mid <= hi + 1
    ensures CountWeekdays(lo, hi) == CountWeekdays(lo, mid - 1) + CountWeekdays(mid, hi)
    decreases hi - mid
  {
    if hi >= mid {
      CountSplit(lo, mid, hi - 1);
    }
  }

  /** Sliding a seven-day window by one day drops a day and adds one on the same weekday. */
  lemma WeekShift(a: int)
    ensures CountWeekdays(a + 1, a + 7) == CountWeekdays(a, a + 6)
  {
    CountSplit(a, a + 1, a + 7);
    WeekdayPeriodic(a);
  }

  /** Any seven consecutive days hold exactly five weekdays, whatever day they start on. */
  lemma {:induction false} FullWeek(a: int)
    ensures CountWeekdays(a, a + 6) == 5
    decreases if a >= 1 then a - 1 else 1 - a
  {
    if a > 1 {
      FullWeek(a - 1);
      WeekShift(a - 1);
    } else if a < 1 {
      FullWeek(a + 1);
      WeekShift(a);
    } else {
      assert CountWeekdays(1, 7) == 5;
    }
  }

  /** k whole weeks hold 5 * k weekdays. */
  lemma {:induction false} FullWeeks(a: int, k: nat)
    ensures CountWeekdays(a, a + 7 * k - 1) == 5 * k
    decreases k
  {
    if k > 0 {
      CountSplit(a, a + 7, a + 7 * k - 1);
      FullWeek(a);
      FullWeeks(a + 7, k - 1);
    }
  }

  /**
   * The closed form: a span of days is its whole weeks, five weekdays each,
   * plus the span % 7 days at its start, counted one by one.
   */
  lemma ClosedForm(lo: int, span: nat)
    ensures CountWeekdays(lo, lo + span - 1)
            == (span / 7) * 5 + CountWeekdays(lo, lo + span % 7 - 1)
  {
    var q, r := span / 7, span % 7;
    assert lo + r + 7 * q - 1 == lo + span - 1;
    CountSplit(lo, lo + r, lo + span - 1);
    FullWeeks(lo + r, q);
  }

  /** Fewer than seven consecutive days hold at most five weekdays. */
  lemma LeftoverBound(a: int, r: int)
    requires 0 <= r < 7
    ensures CountWeekdays(a, a + r - 1) <= 5
  {
    CountSplit(a, a + r, a + 6);
    FullWeek(a);
  }

  /** The weekday j days after a day is that day's weekday plus j, modulo 7. */
  lemma WeekdayOffset(o: int, j: int)
    ensures (OrdinalWeekday(o) + j) % 7 == OrdinalWeekday(o + j)
  {
  }

  /** Scanning i days by weekday index counts the weekdays among the first i days. */
  lemma {:induction false} ExtraWeekdaysCount(lo: int, i: int)
    requires i >= 0
    ensures ExtraWeekdays(OrdinalWeekday(lo), i) == CountWeekdays(lo, lo + i - 1)
  {
    if i > 0 {
      ExtraWeekdaysCount(lo, i - 1);
      WeekdayOffset(lo, i - 1);
    }
  }

  // ----- the operations -----

  /** `sorted([a, b])` on two dates: the later-compared date goes second; ties keep their order. */
  function SortDates(a: Date, b: Date): (r: (Date, Date))
    requires Valid(a) && Valid(b)
    ensures (r.0 == a && r.1 == b) || (r.0 == b && r.1 == a)
    ensures !Before(r.1, r.0)
    ensures Ordinal(r.0) <= Ordinal(r.1)
  {
    OrdinalOrder(a, b);
    if Before(b, a) then (b, a) else (a, b)
  }

  /** The number of days from `startDate` to `endDate`, counting both. */
  function DaysBetweenInclusive(startDate: Date, endDate: Date): (n: int)
    requires Valid(startDate) && Valid(endDate)
    ensures n >= 1 <==> !Before(endDate, startDate)
    ensures n == 1 <==> startDate == endDate
    ensures n <= MaxOrdinal
  {
    OrdinalOrder(startDate, endDate);
    OrdinalOrder(endDate, startDate);
    Ordinal(endDate) - Ordinal(startDate) + 1
  }

  /**
   * Counts the weekdays between two dates, both included, in either order:
   * five per whole week plus a scan of at most six leftover days.
   */
  method WeekdaysBetween(firstDate: Date, secondDate: Date) returns (numWeekdays: int)
    requires Valid(firstDate) && Valid(secondDate)
    ensures numWeekdays == WeekdaysInclusive(firstDate, secondDate)
    ensures firstDate == secondDate ==> numWeekdays == if IsWeekday(firstDate) then 1 else 0
  {
    hide Ordinal;
    if firstDate == secondDate {
      SingleDay(firstDate);
      return if Weekday(firstDate) < 5 then 1 else 0;
    }

    var (startDate, endDate) := SortDates(firstDate, secondDate);
    var startWeekday := Weekday(startDate);
    var numDaysBetweenInclusive := DaysBetweenInclusive(startDate, endDate);

    var numFullWeeksBetween := numDaysBetweenInclusive / 7;
    var numExtraDaysBetween := numDaysBetweenInclusive % 7;

    numWeekdays := numFullWeeksBetween * 5;

    for i := 0 to numExtraDaysBetween
      invariant numWeekdays == numFullWeeksBetween * 5 + ExtraWeekdays(startWeekday, i)
    {
      var weekdayPlusI := (startWeekday + i) % 7;
      if weekdayPlusI < 5 {
        numWeekdays := numWeekdays + 1;
      }
    }
    WeekdaysInclusiveClosedForm(firstDate, secondDate);
  }

  // ----- properties of the counter -----

  /** Ordering the dates does not depend on the order they are given in. */
  lemma SortDatesSymmetric(a: Date, b: Date)
    requires Valid(a) && Valid(b)
    ensures SortDates(a, b) == SortDates(b, a)
  {
  }

  /** The count does not depend on the order of the two dates. */
  lemma WeekdaysInclusiveSymmetric(a: Date, b: Date)
    requires Valid(a) && Valid(b)
    ensures WeekdaysInclusive(a, b) == WeekdaysInclusive(b, a)
  {
  }

  /** A single day counts 1 if it is Monday to Friday and 0 otherwise. */
  lemma SingleDay(d: Date)
    requires Valid(d)
    ensures WeekdaysInclusive(d, d) == if IsWeekday(d) then 1 else 0
  {
  }

  /** The general path, run on a single day, gives what the same-day shortcut returns. */
  lemma SameDayShortcut(d: Date)
    requires Valid(d)
    ensures var span := DaysBetweenInclusive(d, d);
            (span / 7) * 5 + ExtraWeekdays(Weekday(d), span % 7) == if IsWeekday(d) then 1 else 0
  {
  }

  /**
   * With span the inclusive day count of the ordered dates: the result is the
   * whole weeks' weekdays plus at most min(span % 7, 5), and never exceeds span.
   */
  lemma WeekdaysBetweenBounds(a: Date, b: Date)
    requires Valid(a) && Valid(b)
    ensures var span := DaysBetweenInclusive(SortDates(a, b).0, SortDates(a, b).1);
            var n := WeekdaysInclusive(a, b);
            && span >= 1
            && (span / 7) * 5 <= n
            && n <= (span / 7) * 5 + (if span % 7 < 5 then span % 7 else 5)
            && n <= span
  {
    var (s, e) := SortDates(a, b);
    var span := DaysBetweenInclusive(s, e);
    WeekdaysInclusiveClosedForm(a, b);
    ExtraWeekdaysCount(Ordinal(s), span % 7);
    LeftoverBound(Ordinal(s), span % 7);
  }

  /** One more day at the end of the range adds one to the inclusive day count. */
  lemma DaysBetweenInclusiveNext(startDate: Date, endDate: Date)
    requires Valid(startDate) && Valid(endDate) && NextDay(endDate).Some?
    ensures DaysBetweenInclusive(startDate, NextDay(endDate).value)
            == DaysBetweenInclusive(startDate, endDate) + 1
  {
    NextDayOrdinal(endDate);
  }

  /** Seven consecutive days hold five weekdays, whatever day they start on. */
  lemma SevenConsecutiveDays(startDate: Date, endDate: Date)
    requires Valid(startDate) && Valid(endDate)
    requires DaysBetweenInclusive(startDate, endDate) == 7
    ensures WeekdaysInclusive(startDate, endDate) == 5
  {
    FullWeek(Ordinal(startDate));
  }

  /**
   * The counter's closed form stated on dates: for the ordered pair, the
   * whole weeks of the inclusive span count five each and the leftover days
   * are scanned from the earlier date's weekday.
   */
  lemma WeekdaysInclusiveClosedForm(a: Date, b: Date)
    requires Valid(a) && Valid(b)
    ensures var span := DaysBetweenInclusive(SortDates(a, b).0, SortDates(a, b).1);
            WeekdaysInclusive(a, b)
            == (span / 7) * 5 + ExtraWeekdays(Weekday(SortDates(a, b).0), span % 7)
  {
    hide Ordinal;
    var (s, e) := SortDates(a, b);
    RangeClosedForm(Ordinal(s), Ordinal(e));
  }

  /** The closed form over a range of ordinals lo .. hi. */
  lemma RangeClosedForm(lo: int, hi: int)
    requires lo <= hi
    ensures CountWeekdays(lo, hi)
            == ((hi - lo + 1) / 7) * 5 + ExtraWeekdays(OrdinalWeekday(lo), (hi - lo + 1) % 7)
  {
    var span := hi - lo + 1;
    ExtraWeekdaysCount(lo, span % 7);
    ClosedForm(lo, span);
  }

  // ----- regression values -----

  // The dates below come in as parameters pinned by the requires clause: with
  // literal dates in the goal the verifier would try to evaluate the
  // day-by-day count one day at a time.

  /** 2023-01-01 is a Sunday and 2023-01-02 a Monday. */
  lemma NewYear2023(jan1: Date, jan2: Date)
    requires jan1 == Date(2023, 1, 1) && jan2 == Date(2023, 1, 2)
    ensures WeekdaysInclusive(jan1, jan1) == 0
    ensures WeekdaysInclusive(jan1, jan2) == 1
  {
    assert Ordinal(jan1) == 738521;
    assert Ordinal(jan2) == 738522;
    assert OrdinalWeekday(738521) == 6;
    assert CountWeekdays(738521, 738522) == 1;
  }

  /** January 2023 starts on a Sunday and holds 22 weekdays. */
  lemma January2023(jan1: Date, jan31: Date)
    requires jan1 == Date(2023, 1, 1) && jan31 == Date(2023, 1, 31)
    ensures WeekdaysInclusive(jan1, jan31) == 22
  {
    var lo, hi := Ordinal(jan1), Ordinal(jan31);
    assert lo == 738521 && hi == 738551;
    assert OrdinalWeekday(lo) == 6 && (hi - lo + 1) / 7 == 4 && (hi - lo + 1) % 7 == 3;
    assert ExtraWeekdays(6, 3) == 2;
    hide Ordinal;
    RangeClosedForm(lo, hi);
  }

  /** 2020-01-01 (a Wednesday) to 2021-01-01 (a Friday) spans 367 days with 263 weekdays. */
  lemma Year2020(start: Date, end: Date)
    requires start == Date(2020, 1, 1) && end == Date(2021, 1, 1)
    ensures DaysBetweenInclusive(start, end) == 367
    ensures WeekdaysInclusive(start, end) == 263
  {
    var lo, hi := Ordinal(start), Ordinal(end);
    assert lo == 737425 && hi == 737791;
    assert OrdinalWeekday(lo) == 2 && (hi - lo + 1) / 7 == 52 && (hi - lo + 1) % 7 == 3;
    assert ExtraWeekdays(2, 3) == 3;
    hide Ordinal;
    RangeClosedForm(lo, hi);
  }

  /** From 0001-01-01 to 9999-12-31: 521722 whole weeks, then 5 leftover days from a Monday. */
  lemma WholeRange(first: Date, last: Date)
    requires first == Date(1, 1, 1) && last == Date(MaxYear, 12, 31)
    ensures DaysBetweenInclusive(first, last) == MaxOrdinal
    ensures WeekdaysInclusive(first, last) == 2608615
  {
    FirstDay();
    LastDay();
    hide Ordinal;
    hide CountWeekdays;
    var lo, hi := Ordinal(first), Ordinal(last);
    assert lo == 1 && hi == MaxOrdinal;
    assert OrdinalWeekday(lo) == 0 && (hi - lo + 1) / 7 == 521722 && (hi - lo + 1) % 7 == 5;
    assert ExtraWeekdays(0, 5) == 5;
    RangeClosedForm(lo, hi);
  }
}
