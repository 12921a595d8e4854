/**
 * The calendar that `java.util.GregorianCalendar` checks a non-lenient parse against:
 * Julian before the cut-over of October 1582, Gregorian after it.
 */
module Calendar {

  /** A calendar date: day of month, month 1..12, year of the era. */
  datatype Date = Date(day: int, month: int, year: int)

  /** The last year counted with the Julian leap-year rule. */
  const GregorianCutoverYear: int := 1582

  /** `GregorianCalendar.isLeapYear`. */
  predicate IsLeapYear(year: int)
  {
    if year > GregorianCutoverYear then (year % 4 == 0 && year % 100 != 0) || year % 400 == 0
    else year % 4 == 0
  }

  function DaysInMonth(month: int, year: int): (n: int)
    requires 1 <= month <= 12
    ensures 28 <= n <= 31
    ensures n == 31 <==> month in {1, 3, 5, 7, 8, 10, 12}
    ensures month in {4, 6, 9, 11} ==> n == 30
    ensures month == 2 ==> (n == 29 <==> IsLeapYear(year))
  {
    if month == 2 then (if IsLeapYear(year) then 29 else 28)
    else if month in {4, 6, 9, 11} then 30
    else 31
  }

  /** The ten days 5..14 October 1582 that the switch to the Gregorian calendar skipped. */
  predicate InCutoverGap(d: Date)
  {
    d.year == GregorianCutoverYear && d.month == 10 && 5 <= d.day <= 14
  }

  /**
   * A date that exists: a year of four digits at most and at least 1 (the era's first),
   * a month 1..12, a day within the month, and not one of the skipped days.
   */
  predicate IsCalendarDate(d: Date)
  {
    && 1 <= d.year <= 9999
    && 1 <= d.month <= 12
    && 1 <= d.day <= DaysInMonth(d.month, d.year)
    && !InCutoverGap(d)
  }

  /**
   * A Firebase `Timestamp`, seen through the calendar date it falls on: a date this
   * calendar accepts in the years 0001 to 9999. Firebase's own range starts at 1 January
   * 0001 of the proleptic Gregorian calendar, two days after the first date here.
   */
  type Timestamp = d: Date | IsCalendarDate(d) witness Date(1, 1, 1970)
}
