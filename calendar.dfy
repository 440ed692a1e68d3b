/** The proleptic Gregorian calendar in local wall-clock time, as both
    `java.util.Calendar` and JavaScript's `Date` present a moment: year, month
    (0-based, 0 = January), day of month (1-based) and the time of day down to
    the millisecond. */
module Calendar {

  datatype DateTime = DateTime(year: int, month: int, day: int,
                               hour: int, minute: int, second: int, millisecond: int)

  predicate IsLeapYear(y: int) {
    y % 4 == 0 && (y % 100 != 0 || y % 400 == 0)
  }

  /** Length of month `month` (0-based) of `year`. */
  function DaysInMonth(year: int, month: int): (n: int)
    requires 0 <= month < 12
    ensures 28 <= n <= 31
    ensures n == 31 <==> month in {0, 2, 4, 6, 7, 9, 11}
    ensures n == 30 <==> month in {3, 5, 8, 10}
    ensures month == 1 ==> (n == 29 <==> IsLeapYear(year))
  {
    if month == 1 then (if IsLeapYear(year) then 29 else 28)
    else if month == 3 || month == 5 || month == 8 || month == 10 then 30
    else 31
  }

  /** Every field lies in its calendar range. */
  predicate Valid(d: DateTime) {
    0 <= d.month < 12 && 1 <= d.day <= DaysInMonth(d.year, d.month)
    && 0 <= d.hour < 24 && 0 <= d.minute < 60 && 0 <= d.second < 60
    && 0 <= d.millisecond < 1000
  }

  /** A real moment: a date-time whose fields are all in range. */
  type Date = d: DateTime | Valid(d) witness DateTime(1970, 0, 1, 0, 0, 0, 0)

  const MillisPerDay: int := 86400000

  /** Position of the calendar day on a line with 31 slots per month. */
  function DaySlot(d: DateTime): int {
    (d.year * 12 + d.month) * 31 + (d.day - 1)
  }

  function MillisOfDay(d: DateTime): int {
    ((d.hour * 60 + d.minute) * 60 + d.second) * 1000 + d.millisecond
  }

  /** An integer position of a moment on the time line: one date is earlier than
      another exactly when its ordinal is smaller (see OrdinalOrder). It is used for
      every comparison of dates; differences of ordinals are not durations. */
  function Ordinal(d: DateTime): int {
    DaySlot(d) * MillisPerDay + MillisOfDay(d)
  }

  /** Strictly earlier in the calendar: compares year, month, day, hour, minute,
      second and millisecond in that order. */
  predicate Earlier(a: DateTime, b: DateTime) {
    if a.year != b.year then a.year < b.year
    else if a.month != b.month then a.month < b.month
    else if a.day != b.day then a.day < b.day
    else if a.hour != b.hour then a.hour < b.hour
    else if a.minute != b.minute then a.minute < b.minute
    else if a.second != b.second then a.second < b.second
    else a.millisecond < b.millisecond
  }

  /** Ordinals order valid date-times exactly as the calendar does, and tell them apart. */
  lemma OrdinalOrder(a: DateTime, b: DateTime)
    requires Valid(a) && Valid(b)
    ensures Ordinal(a) < Ordinal(b) <==> Earlier(a, b)
    ensures Ordinal(a) == Ordinal(b) <==> a == b
  {
    assert 0 <= MillisOfDay(a) < MillisPerDay && 0 <= MillisOfDay(b) < MillisPerDay;
    if DaySlot(a) != DaySlot(b) {
      assert DaySlot(a) < DaySlot(b) <==> Earlier(a, b);
      assert a != b;
    } else {
      assert a.year == b.year && a.month == b.month && a.day == b.day;
    }
  }

  /** Days of `year` before month `month` (0-based). */
  function DaysBeforeMonth(year: int, month: int): (n: int)
    requires 0 <= month <= 12
    ensures n >= 0
  {
    if month == 0 then 0 else DaysBeforeMonth(year, month - 1) + DaysInMonth(year, month - 1)
  }

  lemma {:induction false} DaysBeforeMonthMonotone(year: int, m1: int, m2: int)
    requires 0 <= m1 <= m2 <= 12
    ensures DaysBeforeMonth(year, m1) <= DaysBeforeMonth(year, m2)
    decreases m2 - m1
  {
    if m1 < m2 {
      DaysBeforeMonthMonotone(year, m1, m2 - 1);
    }
  }

  /** `Calendar.DAY_OF_YEAR`: 1 for January 1st. */
  function DayOfYear(d: DateTime): (n: int)
    requires Valid(d)
    ensures n >= 1
  {
    DaysBeforeMonth(d.year, d.month) + d.day
  }

  /** The day of the year identifies month and day within one year. */
  lemma DayOfYearInjective(a: DateTime, b: DateTime)
    requires Valid(a) && Valid(b) && a.year == b.year
    ensures DayOfYear(a) == DayOfYear(b) <==> a.month == b.month && a.day == b.day
  {
    if a.month < b.month {
      DaysBeforeMonthMonotone(a.year, a.month + 1, b.month);
    } else if b.month < a.month {
      DaysBeforeMonthMonotone(a.year, b.month + 1, a.month);
    }
  }

  /** JavaScript's `new Date(year, monthIndex, day)` at 00:00 for a day that exists:
      a month index outside 0..11 rolls into earlier or later years. */
  function MonthOf(year: int, monthIndex: int): (ym: (int, int))
    ensures 0 <= ym.1 < 12
    ensures ym.0 * 12 + ym.1 == year * 12 + monthIndex
  {
    (year + monthIndex / 12, monthIndex % 12)
  }

  function Midnight(year: int, month: int, day: int): DateTime {
    DateTime(year, month, day, 0, 0, 0, 0)
  }

  /** The calendar day of a date-time, as `moment(d).format('YYYY-MM-DD')` names it. */
  datatype DayKey = DayKey(year: int, month: int, day: int)

  function KeyOf(d: DateTime): DayKey {
    DayKey(d.year, d.month, d.day)
  }

  /** Position of a day key on the line of days; `new Date(key)` of two keys compare like these. */
  function KeySlot(k: DayKey): int {
    (k.year * 12 + k.month) * 31 + (k.day - 1)
  }
}
