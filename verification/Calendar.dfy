/**
 * The proleptic Gregorian calendar of Python's `datetime.date`, and the
 * birthday-occurrence arithmetic that the detection scan does on it.
 */
module Calendar {
  import opened Common

  const MAX_YEAR := 9999

  datatype Date = Date(year: int, month: int, day: int)

  predicate IsLeap(year: int) {
    year % 4 == 0 && (year % 100 != 0 || year % 400 == 0)
  }

  function DaysInMonth(year: int, month: int): int {
    if month == 2 then (if IsLeap(year) then 29 else 28)
    else if month == 4 || month == 6 || month == 9 || month == 11 then 30
    else 31
  }

  predicate IsDate(d: Date) {
    && 1 <= d.year <= MAX_YEAR
    && 1 <= d.month <= 12
    && 1 <= d.day <= DaysInMonth(d.year, d.month)
  }

  /** The dates `date(...)` can build; everything else raises ValueError. */
  type CalendarDate = d: Date | IsDate(d) witness Date(1, 1, 1)

  /** `a < b` on dates: year, then month, then day. */
  predicate Before(a: Date, b: Date) {
    || a.year < b.year
    || (a.year == b.year && a.month < b.month)
    || (a.year == b.year && a.month == b.month && a.day < b.day)
  }

  function DaysBeforeYear(year: int): int {
    (year - 1) * 365 + (year - 1) / 4 - (year - 1) / 100 + (year - 1) / 400
  }

  function DaysBeforeMonth(year: int, month: int): int {
    (if month <= 1 then 0 else if month == 2 then 31 else if month == 3 then 59
     else if month == 4 then 90 else if month == 5 then 120 else if month == 6 then 151
     else if month == 7 then 181 else if month == 8 then 212 else if month == 9 then 243
     else if month == 10 then 273 else if month == 11 then 304 else 334)
    + (if month > 2 && IsLeap(year) then 1 else 0)
  }

  /** `date.toordinal()`: day 1 is 1 January of year 1. */
  function Ordinal(d: Date): int {
    DaysBeforeYear(d.year) + DaysBeforeMonth(d.year, d.month) + d.day
  }

  /** `(later - earlier).days` */
  function DaysBetween(earlier: Date, later: Date): int {
    Ordinal(later) - Ordinal(earlier)
  }

  /** The next day, found without any day count. */
  function Tomorrow(d: Date): Date {
    if d.day < DaysInMonth(d.year, d.month) then Date(d.year, d.month, d.day + 1)
    else if d.month < 12 then Date(d.year, d.month + 1, 1)
    else Date(d.year + 1, 1, 1)
  }

  // ------------------------------------------------------------------
  // The day count is the calendar's
  // ------------------------------------------------------------------

  lemma YearLength(year: int)
    ensures DaysBeforeYear(year + 1) == DaysBeforeYear(year) + (if IsLeap(year) then 366 else 365)
  {
    assert year / 4 == (year - 1) / 4 + (if year % 4 == 0 then 1 else 0);
    assert year / 100 == (year - 1) / 100 + (if year % 100 == 0 then 1 else 0);
    assert year / 400 == (year - 1) / 400 + (if year % 400 == 0 then 1 else 0);
  }

  lemma MonthLength(year: int, month: int)
    requires 1 <= month <= 12
    ensures DaysBeforeMonth(year, month) + DaysInMonth(year, month)
         == if month < 12 then DaysBeforeMonth(year, month + 1) else if IsLeap(year) then 366 else 365
  {
  }

  lemma TomorrowThisYear(d: CalendarDate)
    requires d.month < 12 || d.day < DaysInMonth(d.year, d.month)
    ensures Tomorrow(d).year == d.year
    ensures DaysBeforeMonth(d.year, Tomorrow(d).month) + Tomorrow(d).day == DaysBeforeMonth(d.year, d.month) + d.day + 1
  {
    MonthLength(d.year, d.month);
  }

  lemma TomorrowNextYear(d: CalendarDate)
    requires d.month == 12 && d.day == DaysInMonth(d.year, d.month)
    ensures Tomorrow(d) == Date(d.year + 1, 1, 1)
    ensures Ordinal(Tomorrow(d)) == Ordinal(d) + 1
  {
    YearLength(d.year);
  }

  /** Ordinal counts days: every calendar day adds exactly 1 (and `FirstDayIsOne` starts the count). */
  lemma OrdinalCountsDays(d: CalendarDate)
    ensures Ordinal(Tomorrow(d)) == Ordinal(d) + 1
  {
    if d.month < 12 || d.day < DaysInMonth(d.year, d.month) {
      TomorrowThisYear(d);
    } else {
      TomorrowNextYear(d);
    }
  }

  lemma FirstDayIsOne()
    ensures Ordinal(Date(1, 1, 1)) == 1
  {
  }

  lemma DayOfYearInRange(d: CalendarDate)
    ensures DaysBeforeYear(d.year) < Ordinal(d) <= DaysBeforeYear(d.year + 1)
  {
    YearLength(d.year);
  }

  lemma {:induction false} YearsAreOrdered(a: int, b: int)
    requires a <= b
    ensures DaysBeforeYear(a) + 365 * (b - a) <= DaysBeforeYear(b)
    decreases b - a
  {
    if a < b {
      YearLength(a);
      YearsAreOrdered(a + 1, b);
    }
  }

  /** Comparing dates field by field is comparing their day numbers. */
  lemma OrderAgreesWithDayCount(a: CalendarDate, b: CalendarDate)
    ensures Before(a, b) <==> Ordinal(a) < Ordinal(b)
    ensures a == b <==> Ordinal(a) == Ordinal(b)
  {
    DayOfYearInRange(a);
    DayOfYearInRange(b);
    if a.year < b.year {
      YearsAreOrdered(a.year + 1, b.year);
    } else if b.year < a.year {
      YearsAreOrdered(b.year + 1, a.year);
    }
  }

  // ------------------------------------------------------------------
  // Birthday occurrences
  // ------------------------------------------------------------------

  /** The `date(year, month, day)` constructor. */
  function MakeDate(year: int, month: int, day: int): Option<CalendarDate> {
    if IsDate(Date(year, month, day)) then Some(Date(year, month, day)) else None
  }

  function OccurrenceForYear(birthMonth: int, birthDay: int, year: int): Option<CalendarDate> {
    if birthMonth == 2 && birthDay == 29 && !IsLeap(year) then MakeDate(year, 3, 1)
    else MakeDate(year, birthMonth, birthDay)
  }

  /** None where the Python function raises ValueError. */
  function NextOccurrence(birthMonth: int, birthDay: int, today: CalendarDate): Option<CalendarDate> {
    match OccurrenceForYear(birthMonth, birthDay, today.year)
    case None => None
    case Some(candidate) =>
      if Before(candidate, today) then OccurrenceForYear(birthMonth, birthDay, today.year + 1)
      else Some(candidate)
  }

  /**
   * What it means for a birthday to be observed on a date, said about the date
   * alone: it carries the month and day, or it is the 1 March that stands in
   * for a missing 29 February.
   */
  predicate FallsOn(birthMonth: int, birthDay: int, d: Date) {
    || (d.month == birthMonth && d.day == birthDay)
    || (birthMonth == 2 && birthDay == 29 && !IsLeap(d.year) && d.month == 3 && d.day == 1)
  }

  /** A birthday is observed at most once a year, and `OccurrenceForYear` finds it. */
  lemma OncePerYear(birthMonth: int, birthDay: int, o: CalendarDate)
    ensures FallsOn(birthMonth, birthDay, o) <==> OccurrenceForYear(birthMonth, birthDay, o.year) == Some(o)
  {
  }

  /** Consecutive occurrences are 365 or 366 days apart. */
  lemma YearlyGap(birthMonth: int, birthDay: int, o: CalendarDate, next: CalendarDate)
    requires FallsOn(birthMonth, birthDay, o) && FallsOn(birthMonth, birthDay, next)
    requires next.year == o.year + 1
    ensures 365 <= DaysBetween(o, next) <= 366
  {
    YearLength(o.year);
  }

  /**
   * The returned date is the least occurrence on or after today, and it raises
   * exactly when the calendar (which ends with year 9999) holds none.
   */
  lemma NextOccurrenceIsLeast(birthMonth: int, birthDay: int, today: CalendarDate)
    ensures NextOccurrence(birthMonth, birthDay, today).Some?
       <==> exists o: CalendarDate :: FallsOn(birthMonth, birthDay, o) && !Before(o, today)
    ensures NextOccurrence(birthMonth, birthDay, today).Some? ==>
              var r := NextOccurrence(birthMonth, birthDay, today).value;
              && FallsOn(birthMonth, birthDay, r)
              && !Before(r, today)
              && forall o: CalendarDate :: FallsOn(birthMonth, birthDay, o) && !Before(o, today) ==> !Before(o, r)
  {
    forall o: CalendarDate | FallsOn(birthMonth, birthDay, o) && !Before(o, today)
      ensures NextOccurrence(birthMonth, birthDay, today).Some?
      ensures !Before(o, NextOccurrence(birthMonth, birthDay, today).value)
    {
      OncePerYear(birthMonth, birthDay, o);
    }
    if NextOccurrence(birthMonth, birthDay, today).Some? {
      assert FallsOn(birthMonth, birthDay, NextOccurrence(birthMonth, birthDay, today).value);
    }
  }

  /** 0 <= days_remaining <= 365, so a non-negative lookback never excludes anyone. */
  lemma DaysRemainingInRange(birthMonth: int, birthDay: int, today: CalendarDate)
    requires NextOccurrence(birthMonth, birthDay, today).Some?
    ensures 0 <= DaysBetween(today, NextOccurrence(birthMonth, birthDay, today).value) <= 365
  {
    var r := NextOccurrence(birthMonth, birthDay, today).value;
    OrderAgreesWithDayCount(r, today);
    var candidate := OccurrenceForYear(birthMonth, birthDay, today.year).value;
    OrderAgreesWithDayCount(candidate, today);
    if r.year == today.year {
      DayOfYearInRange(r);
      DayOfYearInRange(today);
      YearLength(today.year);
    } else {
      YearlyGap(birthMonth, birthDay, candidate, r);
    }
  }

  /**
   * A day sees the occurrence `o` as its next one exactly when `o` has not
   * passed and no other occurrence lies in between.
   */
  lemma SeesExactlyTheNext(birthMonth: int, birthDay: int, today: CalendarDate, o: CalendarDate)
    requires FallsOn(birthMonth, birthDay, o)
    ensures NextOccurrence(birthMonth, birthDay, today) == Some(o)
       <==> && !Before(o, today)
            && forall p: CalendarDate :: FallsOn(birthMonth, birthDay, p) && !Before(p, today) ==> !Before(p, o)
  {
    NextOccurrenceIsLeast(birthMonth, birthDay, today);
  }

  /**
   * The same as a day count: a day is heading for occurrence `o` exactly when `o`
   * is 0 to 365 days away, and not 365 days away on a birthday.
   */
  lemma SeesWithinTheYear(birthMonth: int, birthDay: int, today: CalendarDate, o: CalendarDate)
    requires FallsOn(birthMonth, birthDay, o)
    ensures NextOccurrence(birthMonth, birthDay, today) == Some(o)
       <==> && 0 <= DaysBetween(today, o) <= 365
            && (DaysBetween(today, o) == 365 ==> !FallsOn(birthMonth, birthDay, today))
  {
    hide FallsOn, NextOccurrence, OccurrenceForYear, Ordinal;
    NextOccurrenceIsLeast(birthMonth, birthDay, today);
    OrderAgreesWithDayCount(o, today);
    if !Before(o, today) {
      var r := NextOccurrence(birthMonth, birthDay, today).value;
      DaysRemainingInRange(birthMonth, birthDay, today);
      OrderAgreesWithDayCount(r, today);
      OrderAgreesWithDayCount(r, o);
      if r != o {
        LaterOccurrenceIsAYearLater(birthMonth, birthDay, r, o);
        OrderAgreesWithDayCount(today, r);
      } else {
        TodayIsItsOwnNext(birthMonth, birthDay, today, r);
      }
    }
  }

  lemma LaterOccurrenceIsAYearLater(birthMonth: int, birthDay: int, r: CalendarDate, o: CalendarDate)
    requires FallsOn(birthMonth, birthDay, r) && FallsOn(birthMonth, birthDay, o) && Before(r, o)
    ensures DaysBetween(r, o) >= 365
  {
    OncePerYear(birthMonth, birthDay, o);
    OncePerYear(birthMonth, birthDay, r);
    if o.year == r.year + 1 {
      YearlyGap(birthMonth, birthDay, r, o);
    } else {
      DayOfYearInRange(r);
      DayOfYearInRange(o);
      YearsAreOrdered(r.year + 1, o.year);
      assert o.year >= r.year + 2;
    }
  }

  lemma TodayIsItsOwnNext(birthMonth: int, birthDay: int, today: CalendarDate, r: CalendarDate)
    requires NextOccurrence(birthMonth, birthDay, today) == Some(r)
    ensures FallsOn(birthMonth, birthDay, today) ==> r == today
  {
    OncePerYear(birthMonth, birthDay, today);
  }

  /** 364 is the last lookahead that works: 365 days out, last year's occurrence can still be "next". */
  lemma TheWindowCannotBeLonger()
    ensures FallsOn(1, 1, Date(2027, 1, 1))
    ensures DaysBetween(Date(2026, 1, 1), Date(2027, 1, 1)) == 365
    ensures NextOccurrence(1, 1, Date(2026, 1, 1)) == Some(Date(2026, 1, 1))
  {
  }
}
