/** Instants as local calendar tuples with second resolution, as the routes
    and the seed build them with `new Date(year, month, day, h, m, s)`. The
    month is zero-based, as Date.prototype.getMonth returns it. */
module Calendar {

  datatype DateTime = DateTime(year: int, month: int, day: int, hour: int, minute: int, second: int)

  /** Every field in its range (the day only up to 31: month lengths are
      not modelled). */
  predicate IsClock(t: DateTime) {
    && 0 <= t.month <= 11
    && 1 <= t.day <= 31
    && 0 <= t.hour <= 23
    && 0 <= t.minute <= 59
    && 0 <= t.second <= 59
  }

  /** A stored instant, such as a lead's createdAt or the current time. */
  type Timestamp = t: DateTime | IsClock(t) witness DateTime(1970, 0, 1, 0, 0, 0)

  /** a is not later than b: the lexicographic order of the tuples, which is
      the chronological order of in-range instants. */
  predicate NotAfter(a: DateTime, b: DateTime) {
    || a.year < b.year
    || (a.year == b.year && a.month < b.month)
    || (a.year == b.year && a.month == b.month && a.day < b.day)
    || (a.year == b.year && a.month == b.month && a.day == b.day && a.hour < b.hour)
    || (a.year == b.year && a.month == b.month && a.day == b.day && a.hour == b.hour && a.minute < b.minute)
    || (a.year == b.year && a.month == b.month && a.day == b.day && a.hour == b.hour && a.minute == b.minute
        && a.second <= b.second)
  }

  lemma NotAfterTotalPreorder(a: DateTime, b: DateTime, c: DateTime)
    ensures NotAfter(a, a)
    ensures NotAfter(a, b) || NotAfter(b, a)
    ensures NotAfter(a, b) && NotAfter(b, c) ==> NotAfter(a, c)
    ensures NotAfter(a, b) && NotAfter(b, a) ==> a == b
  {
  }

  /** `new Date(year, month, day, 0, 0, 0)`. */
  function DayStart(year: int, month: int, day: int): DateTime {
    DateTime(year, month, day, 0, 0, 0)
  }

  /** `new Date(year, month, day, 23, 59, 59)`. */
  function DayEnd(year: int, month: int, day: int): DateTime {
    DateTime(year, month, day, 23, 59, 59)
  }

  /** The `{ $gte: startDate, $lte: endDate }` test: t lies in the inclusive
      window from 00:00:00 to 23:59:59 of the given day, which holds exactly
      when t falls on that calendar day. */
  predicate InDayWindow(t: Timestamp, year: int, month: int, day: int): (b: bool)
    ensures b <==> t.year == year && t.month == month && t.day == day
  {
    NotAfter(DayStart(year, month, day), t) && NotAfter(t, DayEnd(year, month, day))
  }
}
