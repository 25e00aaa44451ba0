/**
 * Instants and the calendar buckets derived from them.
 *
 * A `Date` stands for a local calendar instant; comparing two of them
 * lexicographically is what comparing their `getTime()` values does for valid
 * dates. Time zones are not modelled.
 */
module Dates {
  import opened Wrappers

  datatype Date = Date(year: int, month: int, day: int, millis: int)

  /** `a.getTime() < b.getTime()` */
  predicate Before(a: Date, b: Date) {
    || a.year < b.year
    || (a.year == b.year && a.month < b.month)
    || (a.year == b.year && a.month == b.month && a.day < b.day)
    || (a.year == b.year && a.month == b.month && a.day == b.day && a.millis < b.millis)
  }

  /** `a.getTime() <= b.getTime()` */
  predicate NotAfter(a: Date, b: Date) {
    !Before(b, a)
  }

  /** The bucket a date falls into: its calendar day, or its year and month. */
  datatype Key = Day(y: int, m: int, d: int) | Month(y: int, m: int)

  /**
   * `period === 'day' ? format('YYYY-MM-DD') : format('YYYY-MM')`: any period
   * other than "day" buckets by month.
   */
  function KeyOf(period: string, d: Date): (k: Key)
    ensures k.Day? <==> period == "day"
    ensures k.y == d.year && k.m == d.month && (k.Day? ==> k.d == d.day)
  {
    if period == "day" then Day(d.year, d.month, d.day) else Month(d.year, d.month)
  }

  /** A date lying between two dates of one bucket is in that bucket too. */
  lemma KeyBetween(period: string, a: Date, b: Date, c: Date)
    requires NotAfter(a, b) && NotAfter(b, c)
    requires KeyOf(period, a) == KeyOf(period, c)
    ensures KeyOf(period, b) == KeyOf(period, a)
  {
  }

  /** A Mongo date condition `{ $lt?, $gte?, $lte? }`; absent bounds do not constrain. */
  datatype Window = Window(lt: Option<Date>, gte: Option<Date>, lte: Option<Date>)

  predicate InWindow(w: Window, d: Date) {
    && (w.lt.Some? ==> Before(d, w.lt.value))
    && (w.gte.Some? ==> NotAfter(w.gte.value, d))
    && (w.lte.Some? ==> NotAfter(d, w.lte.value))
  }
}
