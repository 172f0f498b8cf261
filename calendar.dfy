/** The proleptic Gregorian calendar of `java.time`, reduced to what the
    services use: dates, date-times, month lengths and the ordering of
    date-times. */
module Calendar {

  datatype Date = Date(year: int, month: int, day: int)

  /** A `LocalDateTime`: a date and a time of day counted in nanoseconds. */
  datatype DateTime = DateTime(date: Date, nanoOfDay: int)

  const NanosPerDay: int := 86_400_000_000_000

  /** `LocalTime.MAX`, 23:59:59.999999999. */
  const MaxNanoOfDay: int := NanosPerDay - 1

  predicate IsLeapYear(y: int) {
    y % 4 == 0 && (y % 100 != 0 || y % 400 == 0)
  }

  function DaysInMonth(year: int, month: int): (n: int)
    requires 1 <= month <= 12
    ensures 28 <= n <= 31
    ensures n == 29 <==> month == 2 && IsLeapYear(year)
  {
    if month == 2 then (if IsLeapYear(year) then 29 else 28)
    else if month == 4 || month == 6 || month == 9 || month == 11 then 30
    else 31
  }

  predicate ValidDate(d: Date) {
    1 <= d.month <= 12 && 1 <= d.day <= DaysInMonth(d.year, d.month)
  }

  predicate ValidDateTime(t: DateTime) {
    ValidDate(t.date) && 0 <= t.nanoOfDay < NanosPerDay
  }

  /** `LocalDate.compareTo(...) <= 0`: year, then month, then day. */
  predicate DateLe(a: Date, b: Date) {
    a.year < b.year
    || (a.year == b.year && (a.month < b.month || (a.month == b.month && a.day <= b.day)))
  }

  /** `LocalDateTime.compareTo(...) <= 0`: the date, then the time of day. */
  predicate DateTimeLe(a: DateTime, b: DateTime) {
    (DateLe(a.date, b.date) && a.date != b.date)
    || (a.date == b.date && a.nanoOfDay <= b.nanoOfDay)
  }

  /** `date.atStartOfDay()`. */
  function AtStartOfDay(d: Date): DateTime { DateTime(d, 0) }

  /** `date.atTime(LocalTime.MAX)`. */
  function AtEndOfDay(d: Date): DateTime { DateTime(d, MaxNanoOfDay) }

  /** A JPA `Between` test: both bounds inclusive. */
  predicate Between(t: DateTime, lo: DateTime, hi: DateTime) {
    DateTimeLe(lo, t) && DateTimeLe(t, hi)
  }

  /** The day window used by the services catches exactly the instants of that day. */
  lemma DayWindow(t: DateTime, d: Date)
    requires ValidDateTime(t)
    ensures Between(t, AtStartOfDay(d), AtEndOfDay(d)) <==> t.date == d
  {
  }

  /** A number that orders valid date-times the way `compareTo` does. */
  function Instant(t: DateTime): int {
    ((t.date.year * 13 + t.date.month) * 32 + t.date.day) * NanosPerDay + t.nanoOfDay
  }

  lemma InstantOrder(a: DateTime, b: DateTime)
    requires ValidDateTime(a) && ValidDateTime(b)
    ensures DateTimeLe(a, b) <==> Instant(a) <= Instant(b)
  {
    var da := (a.date.year * 13 + a.date.month) * 32 + a.date.day;
    var db := (b.date.year * 13 + b.date.month) * 32 + b.date.day;
    assert da < db <==> DateLe(a.date, b.date) && a.date != b.date;
    assert da == db <==> a.date == b.date;
    if da < db {
      assert Instant(a) < (da + 1) * NanosPerDay <= db * NanosPerDay <= Instant(b);
    } else if db < da {
      assert Instant(b) < (db + 1) * NanosPerDay <= da * NanosPerDay <= Instant(a);
    }
  }
}
