/** The date helpers of the Android app. Each boundary helper loads a moment into a
    `java.util.Calendar`, overwrites some of its fields one `set` at a time, and reads the
    moment back; `isToday` and `isThisMonth` compare fields of two calendars. */
module DateUtils {
  import opened Calendar

  /** The `Calendar` fields the helpers write. */
  datatype Field = MONTH | DAY_OF_MONTH | HOUR_OF_DAY | MINUTE | SECOND | MILLISECOND

  /** The fields of `d` after `set(field, value)`. */
  function Updated(d: DateTime, field: Field, value: int): DateTime {
    match field
    case MONTH => d.(month := value)
    case DAY_OF_MONTH => d.(day := value)
    case HOUR_OF_DAY => d.(hour := value)
    case MINUTE => d.(minute := value)
    case SECOND => d.(second := value)
    case MILLISECOND => d.(millisecond := value)
  }

  /** A `java.util.Calendar` in the device's time zone. */
  class JCalendar {
    var fields: DateTime

    ghost predicate Valid()
      reads this
    {
      Calendar.Valid(fields)
    }

    /** `Calendar.getInstance()`, reading the clock as `now`. */
    constructor(now: Date)
      ensures Valid() && fields == now
    {
      fields := now;
    }

    /** `calendar.time = date`. */
    method SetTime(date: Date)
      modifies this
      ensures Valid() && fields == date
    {
      fields := date;
    }

    /** `calendar.set(field, value)` for a value that keeps every field in range. */
    method Set(field: Field, value: int)
      requires Calendar.Valid(Updated(fields, field, value))
      modifies this
      ensures Valid() && fields == Updated(old(fields), field, value)
    {
      fields := Updated(fields, field, value);
    }

    /** `calendar.time`. */
    function Time(): Date
      reads this
      requires Valid()
    {
      fields
    }

    /** `getActualMaximum(DAY_OF_MONTH)`: the last day that exists in the current month. */
    function ActualMaximumDayOfMonth(): (n: int)
      reads this
      requires Valid()
      ensures 28 <= n <= 31
      ensures Calendar.Valid(fields.(day := n)) && !Calendar.Valid(fields.(day := n + 1))
    {
      DaysInMonth(fields.year, fields.month)
    }

    /** `get(YEAR)`. */
    function Year(): int
      reads this
    {
      fields.year
    }

    /** `get(MONTH)`, 0 for January. */
    function Month(): int
      reads this
    {
      fields.month
    }

    /** `get(DAY_OF_YEAR)`. */
    function DayOfYearField(): int
      reads this
      requires Valid()
    {
      DayOfYear(fields)
    }
  }

  predicate SameDay(a: DateTime, b: DateTime) {
    a.year == b.year && a.month == b.month && a.day == b.day
  }

  predicate SameMonth(a: DateTime, b: DateTime) {
    a.year == b.year && a.month == b.month
  }

  predicate SameYear(a: DateTime, b: DateTime) {
    a.year == b.year
  }

  /** `getStartOfMonth`: the first moment of `date`'s month. */
  method GetStartOfMonth(date: Date) returns (r: Date)
    ensures r == DateTime(date.year, date.month, 1, 0, 0, 0, 0)
    ensures SameMonth(r, date) && !Earlier(date, r)
    ensures forall d :: Calendar.Valid(d) && SameMonth(d, date) ==> !Earlier(d, r)
  {
    var calendar := new JCalendar(date);
    calendar.Set(DAY_OF_MONTH, 1);
    calendar.Set(HOUR_OF_DAY, 0);
    calendar.Set(MINUTE, 0);
    calendar.Set(SECOND, 0);
    calendar.Set(MILLISECOND, 0);
    r := calendar.Time();
  }

  /** `getEndOfMonth`: the last millisecond of `date`'s month, on the month's actual last day. */
  method GetEndOfMonth(date: Date) returns (r: Date)
    ensures r == DateTime(date.year, date.month, DaysInMonth(date.year, date.month), 23, 59, 59, 999)
    ensures SameMonth(r, date) && !Earlier(r, date)
    ensures forall d :: Calendar.Valid(d) && SameMonth(d, date) ==> !Earlier(r, d)
  {
    var calendar := new JCalendar(date);
    calendar.Set(DAY_OF_MONTH, calendar.ActualMaximumDayOfMonth());
    calendar.Set(HOUR_OF_DAY, 23);
    calendar.Set(MINUTE, 59);
    calendar.Set(SECOND, 59);
    calendar.Set(MILLISECOND, 999);
    r := calendar.Time();
  }

  /** `getStartOfYear`: January 1st, 00:00:00.000 of `date`'s year. */
  method GetStartOfYear(date: Date) returns (r: Date)
    ensures r == DateTime(date.year, 0, 1, 0, 0, 0, 0)
    ensures SameYear(r, date) && !Earlier(date, r)
    ensures forall d :: Calendar.Valid(d) && SameYear(d, date) ==> !Earlier(d, r)
  {
    var calendar := new JCalendar(date);
    calendar.Set(MONTH, 0);
    calendar.Set(DAY_OF_MONTH, 1);
    calendar.Set(HOUR_OF_DAY, 0);
    calendar.Set(MINUTE, 0);
    calendar.Set(SECOND, 0);
    calendar.Set(MILLISECOND, 0);
    r := calendar.Time();
  }

  /** `getEndOfYear`: December 31st, 23:59:59.999 of `date`'s year. Setting the month to
      December first keeps the day in range, since December has 31 days. */
  method GetEndOfYear(date: Date) returns (r: Date)
    ensures r == DateTime(date.year, 11, 31, 23, 59, 59, 999)
    ensures SameYear(r, date) && !Earlier(r, date)
    ensures forall d :: Calendar.Valid(d) && SameYear(d, date) ==> !Earlier(r, d)
  {
    var calendar := new JCalendar(date);
    calendar.Set(MONTH, 11);
    calendar.Set(DAY_OF_MONTH, 31);
    calendar.Set(HOUR_OF_DAY, 23);
    calendar.Set(MINUTE, 59);
    calendar.Set(SECOND, 59);
    calendar.Set(MILLISECOND, 999);
    r := calendar.Time();
  }

  /** `getStartOfDay`: midnight of `date`'s day; a moment already at midnight is kept. */
  method GetStartOfDay(date: Date) returns (r: Date)
    ensures r == date.(hour := 0, minute := 0, second := 0, millisecond := 0)
    ensures SameDay(r, date) && !Earlier(date, r)
    ensures forall d :: Calendar.Valid(d) && SameDay(d, date) ==> !Earlier(d, r)
    ensures MillisOfDay(date) == 0 ==> r == date
  {
    var calendar := new JCalendar(date);
    calendar.Set(HOUR_OF_DAY, 0);
    calendar.Set(MINUTE, 0);
    calendar.Set(SECOND, 0);
    calendar.Set(MILLISECOND, 0);
    r := calendar.Time();
  }

  /** `getEndOfDay`: 23:59:59.999 of `date`'s day; a moment already there is kept. */
  method GetEndOfDay(date: Date) returns (r: Date)
    ensures r == date.(hour := 23, minute := 59, second := 59, millisecond := 999)
    ensures SameDay(r, date) && !Earlier(r, date)
    ensures forall d :: Calendar.Valid(d) && SameDay(d, date) ==> !Earlier(r, d)
    ensures MillisOfDay(date) == MillisPerDay - 1 ==> r == date
  {
    var calendar := new JCalendar(date);
    calendar.Set(HOUR_OF_DAY, 23);
    calendar.Set(MINUTE, 59);
    calendar.Set(SECOND, 59);
    calendar.Set(MILLISECOND, 999);
    r := calendar.Time();
  }

  /** `isToday`: same year and same day of the year as the clock reading `now`, which is
      the same calendar day; a moment of today is also of this month. */
  method IsToday(date: Date, now: Date) returns (b: bool)
    ensures b <==> SameDay(date, now)
    ensures b ==> SameMonth(date, now)
  {
    var today := new JCalendar(now);
    var checkDate := new JCalendar(now);
    checkDate.SetTime(date);
    b := today.Year() == checkDate.Year() && today.DayOfYearField() == checkDate.DayOfYearField();
    if today.Year() == checkDate.Year() {
      DayOfYearInjective(now, date);
    }
  }

  /** `isThisMonth`: same year and same month as the clock reading `now`. */
  method IsThisMonth(date: Date, now: Date) returns (b: bool)
    ensures b <==> SameMonth(date, now)
  {
    var today := new JCalendar(now);
    var checkDate := new JCalendar(now);
    checkDate.SetTime(date);
    b := today.Year() == checkDate.Year() && today.Month() == checkDate.Month();
  }

  /** The month bounds bracket the moment on the time line too: start <= date <= end by ordinal. */
  lemma MonthBoundsOrdinal(date: Date)
    ensures Ordinal(DateTime(date.year, date.month, 1, 0, 0, 0, 0)) <= Ordinal(date)
    ensures Ordinal(date) <= Ordinal(DateTime(date.year, date.month, DaysInMonth(date.year, date.month), 23, 59, 59, 999))
  {
    var start := DateTime(date.year, date.month, 1, 0, 0, 0, 0);
    var end := DateTime(date.year, date.month, DaysInMonth(date.year, date.month), 23, 59, 59, 999);
    OrdinalOrder(date, start);
    OrdinalOrder(end, date);
  }
}
