/** Calendar dates as Python's `datetime.date` represents them: a year in
    1..9999, a month in 1..12 and a day in 1..31. Only comparison and the
    month arithmetic of the scorer are needed, so no day-per-month
    calendar rule is modelled. */
module Dates {

  type Year = y: int | 1 <= y <= 9999 witness 1
  type Month = m: int | 1 <= m <= 12 witness 1
  type Day = d: int | 1 <= d <= 31 witness 1

  datatype Date = Date(year: Year, month: Month, day: Day)

  /** Python's `a < b` on dates: chronological, i.e. lexicographic on
      (year, month, day). */
  predicate Before(a: Date, b: Date)
  {
    || a.year < b.year
    || (a.year == b.year && a.month < b.month)
    || (a.year == b.year && a.month == b.month && a.day < b.day)
  }

  /** `a <= b` on dates. */
  predicate NotAfter(a: Date, b: Date)
  {
    a == b || Before(a, b)
  }

  /** The number of whole calendar months from January of year 0 to the
      month of `d`; used as an independent reference for month arithmetic. */
  function MonthIndex(d: Date): int
  {
    d.year * 12 + (d.month - 1)
  }

  lemma BeforeTransitive(a: Date, b: Date, c: Date)
    requires Before(a, b) && Before(b, c)
    ensures Before(a, c)
  {
  }

  lemma NotAfterMonthIndex(a: Date, b: Date)
    requires NotAfter(a, b)
    ensures MonthIndex(a) <= MonthIndex(b)
  {
  }
}
