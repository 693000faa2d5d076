/** Instants of UTC time: the Gregorian calendar and the count of nanoseconds since 1970. */
module Calendar {
  import opened Collections

  datatype UtcFields = UtcFields(year: nat, month: nat, day: nat, hour: nat, minute: nat, second: nat)

  predicate IsLeap(year: nat) {
    year % 4 == 0 && (year % 100 != 0 || year % 400 == 0)
  }

  function DaysInMonth(year: nat, month: nat): (d: nat) {
    match month
    case 2 => if IsLeap(year) then 29 else 28
    case 4 => 30
    case 6 => 30
    case 9 => 30
    case 11 => 30
    case _ => 31
  }

  predicate InDate(u: UtcFields) {
    1 <= u.month <= 12 && 1 <= u.day <= DaysInMonth(u.year, u.month)
  }

  predicate InClock(u: UtcFields) {
    u.hour < 24 && u.minute < 60 && u.second < 60
  }

  predicate InCalendar(u: UtcFields) {
    InDate(u) && InClock(u)
  }

  /** A second of UTC time, in the range that RFC 3339 writes with four year digits. */
  type Utc = u: UtcFields | InCalendar(u) && u.year < 10000
    witness UtcFields(1970, 1, 1, 0, 0, 0)

  type Nanos = n: nat | n < 1_000_000_000

  datatype Instant = Instant(utc: Utc, nanos: Nanos)

  /** Days before the first of March of a year, counted from March of the year 0. */
  function YearStart(y: int): int {
    365 * y + y / 4 - y / 100 + y / 400
  }

  /** Days from the first of March to the first of a month. */
  function MonthStart(month: int): int {
    (153 * (if month > 2 then month - 3 else month + 9) + 2) / 5
  }

  /** Days since 1970-01-01. Years are counted from March, so that the leap day comes last. */
  function Days(year: int, month: int, day: int): int {
    YearStart(if month <= 2 then year - 1 else year) + MonthStart(month) + day - 719_469
  }

  function DayNumber(u: UtcFields): int {
    Days(u.year, u.month, u.day)
  }

  function SecondOfDay(u: UtcFields): int {
    (u.hour * 60 + u.minute) * 60 + u.second
  }

  function UnixSeconds(u: UtcFields): int {
    DayNumber(u) * 86_400 + SecondOfDay(u)
  }

  function UnixNanos(t: Instant): int {
    UnixSeconds(t.utc) * SECOND + t.nanos
  }

  // ----- the calendar, one step at a time -----

  function NextDay(u: UtcFields): UtcFields {
    if u.day < DaysInMonth(u.year, u.month) then u.(day := u.day + 1)
    else if u.month < 12 then u.(month := u.month + 1, day := 1)
    else u.(year := u.year + 1, month := 1, day := 1)
  }

  function NextSecond(u: UtcFields): UtcFields {
    if u.second < 59 then u.(second := u.second + 1)
    else if u.minute < 59 then u.(minute := u.minute + 1, second := 0)
    else if u.hour < 23 then u.(hour := u.hour + 1, minute := 0, second := 0)
    else NextDay(u).(hour := 0, minute := 0, second := 0)
  }

  lemma QuarterStep(z: int)
    ensures z / 4 - (z - 1) / 4 == if z % 4 == 0 then 1 else 0
  {
  }

  lemma CenturyStep(z: int)
    ensures z / 100 - (z - 1) / 100 == if z % 100 == 0 then 1 else 0
  {
  }

  lemma EraStep(z: int)
    ensures z / 400 - (z - 1) / 400 == if z % 400 == 0 then 1 else 0
    ensures z % 400 == 0 ==> z % 100 == 0
    ensures z % 100 == 0 ==> z % 4 == 0
  {
    assert z == z / 400 * 400 + z % 400 && z == z / 100 * 100 + z % 100;
  }

  /** From March to March there is the leap day of the second year, if it has one. */
  lemma MarchYear(z: nat)
    ensures YearStart(z) - YearStart(z - 1) == if IsLeap(z) then 366 else 365
  {
    QuarterStep(z);
    CenturyStep(z);
    EraStep(z);
  }

  /** The day after the last of a month is the first of the next. */
  lemma MonthEnd(year: nat, month: nat)
    requires 1 <= month < 12
    ensures Days(year, month + 1, 1) == Days(year, month, DaysInMonth(year, month)) + 1
  {
    hide YearStart, IsLeap;
    MarchYear(year);
  }

  lemma OneDayOn(year: nat, month: nat, day: nat)
    ensures Days(year, month, day + 1) == Days(year, month, day) + 1
    ensures Days(year + 1, 1, 1) == Days(year, 12, 31) + 1
  {
    hide YearStart;
  }

  /** Days are counted one by one across the ends of months, years, leap years and centuries. */
  lemma NextDayCounts(u: UtcFields)
    requires InDate(u)
    ensures InDate(NextDay(u)) && DayNumber(NextDay(u)) == DayNumber(u) + 1
    ensures UnixSeconds(NextDay(u)) == UnixSeconds(u) + 86_400
  {
    hide Days, IsLeap, SecondOfDay;
    SameTimeOfDay(u);
    OneDayOn(u.year, u.month, u.day);
    if u.month < 12 {
      MonthEnd(u.year, u.month);
    }
  }

  lemma SameTimeOfDay(u: UtcFields)
    ensures SecondOfDay(NextDay(u)) == SecondOfDay(u) && (InClock(NextDay(u)) <==> InClock(u))
  {
  }

  lemma TickWithinDay(u: UtcFields)
    requires InClock(u) && !(u.hour == 23 && u.minute == 59 && u.second == 59)
    ensures var v := NextSecond(u);
            && v.year == u.year && v.month == u.month && v.day == u.day
            && InClock(v) && SecondOfDay(v) == SecondOfDay(u) + 1
  {
    hide NextDay;
  }

  lemma TickAtMidnight(u: UtcFields)
    requires u.hour == 23 && u.minute == 59 && u.second == 59
    ensures var v, w := NextSecond(u), NextDay(u);
            && v.year == w.year && v.month == w.month && v.day == w.day
            && InClock(v) && SecondOfDay(v) == 0 && SecondOfDay(u) == 86_399
  {
    hide NextDay;
  }

  lemma CountStarts()
    ensures UnixSeconds(UtcFields(1970, 1, 1, 0, 0, 0)) == 0
  {
    assert Days(1970, 1, 1) == 0;
  }

  /** One second of the clock adds one second to the count. */
  lemma ClockTicks(u: UtcFields)
    requires InCalendar(u)
    ensures InCalendar(NextSecond(u)) && UnixSeconds(NextSecond(u)) == UnixSeconds(u) + 1
  {
    hide Days, DaysInMonth, NextDay, NextSecond, SecondOfDay, InClock;
    if u.hour == 23 && u.minute == 59 && u.second == 59 {
      TickAtMidnight(u);
      NextDayCounts(u);
    } else {
      TickWithinDay(u);
    }
  }

  // ----- order -----

  predicate DateBefore(u: UtcFields, v: UtcFields) {
    u.year < v.year || (u.year == v.year && (u.month < v.month || (u.month == v.month && u.day < v.day)))
  }

  predicate ClockBefore(u: UtcFields, v: UtcFields) {
    || u.hour < v.hour
    || (u.hour == v.hour && (u.minute < v.minute || (u.minute == v.minute && u.second < v.second)))
  }

  /** The order of the written fields, from the year down. */
  predicate Before(u: UtcFields, v: UtcFields) {
    DateBefore(u, v) || (u.year == v.year && u.month == v.month && u.day == v.day && ClockBefore(u, v))
  }

  lemma {:induction false} YearsInOrder(a: nat, b: nat)
    requires a <= b
    ensures Days(a, 1, 1) <= Days(b, 1, 1)
    decreases b
  {
    hide Days;
    if a < b {
      YearsInOrder(a, b - 1);
      YearHasDays(b - 1);
    }
  }

  lemma YearHasDays(year: nat)
    ensures Days(year, 1, 1) < Days(year, 12, 31) < Days(year + 1, 1, 1)
  {
    hide YearStart, IsLeap;
    MarchYear(year);
  }

  lemma {:induction false} MonthsInOrder(year: nat, a: nat, b: nat)
    requires 1 <= a <= b <= 12
    ensures Days(year, a, 1) <= Days(year, b, 1)
    decreases b
  {
    if a < b {
      MonthsInOrder(year, a, b - 1);
      MonthEnd(year, b - 1);
      DaysOfMonth(year, b - 1, DaysInMonth(year, b - 1));
      hide Days, IsLeap;
    }
  }

  lemma DaysOfMonth(year: nat, month: nat, day: nat)
    ensures Days(year, month, day) == Days(year, month, 1) + day - 1
  {
    hide YearStart, MonthStart;
  }

  lemma WithinMonth(u: UtcFields)
    requires InDate(u)
    ensures Days(u.year, u.month, 1) <= DayNumber(u)
    ensures u.month < 12 ==> DayNumber(u) < Days(u.year, u.month + 1, 1)
    ensures Days(u.year, 1, 1) <= DayNumber(u) < Days(u.year + 1, 1, 1)
  {
    DaysOfMonth(u.year, u.month, u.day);
    DaysOfMonth(u.year, u.month, DaysInMonth(u.year, u.month));
    YearHasDays(u.year);
    MonthsInOrder(u.year, 1, u.month);
    if u.month < 12 {
      MonthEnd(u.year, u.month);
      MonthsInOrder(u.year, u.month + 1, 12);
    }
    DaysOfMonth(u.year, 12, 31);
    hide Days, IsLeap;
  }

  lemma DatesInOrder(u: UtcFields, v: UtcFields)
    requires InDate(u) && InDate(v) && DateBefore(u, v)
    ensures DayNumber(u) < DayNumber(v)
  {
    hide Days, DaysInMonth;
    if u.year < v.year {
      WithinMonth(u);
      WithinMonth(v);
      YearsInOrder(u.year + 1, v.year);
    } else if u.month < v.month {
      WithinMonth(u);
      WithinMonth(v);
      MonthsInOrder(u.year, u.month + 1, v.month);
    } else {
      DaysOfMonth(u.year, u.month, u.day);
      DaysOfMonth(v.year, v.month, v.day);
    }
  }

  lemma TimesInOrder(u: UtcFields, v: UtcFields)
    requires InClock(u) && InClock(v)
    ensures 0 <= SecondOfDay(u) < 86_400
    ensures ClockBefore(u, v) ==> SecondOfDay(u) < SecondOfDay(v)
  {
  }

  lemma SecondsInOrder(u: UtcFields, v: UtcFields)
    requires InCalendar(u) && InCalendar(v) && Before(u, v)
    ensures UnixSeconds(u) < UnixSeconds(v)
  {
    if DateBefore(u, v) {
      DatesInOrder(u, v);
    }
    TimesInOrder(u, v);
    TimesInOrder(v, u);
    hide Days, DaysInMonth, SecondOfDay;
  }

  /** The count orders instants as their written fields do. */
  lemma CountInOrder(u: UtcFields, v: UtcFields)
    requires InCalendar(u) && InCalendar(v)
    ensures UnixSeconds(u) < UnixSeconds(v) <==> Before(u, v)
    ensures UnixSeconds(u) == UnixSeconds(v) <==> u == v
  {
    hide DaysInMonth, UnixSeconds;
    if Before(u, v) {
      SecondsInOrder(u, v);
    } else if u != v {
      SecondsInOrder(v, u);
    }
  }

  /** One instant is after another one's time of day on the next calendar day. */
  predicate MoreThanADayAfter(t: Instant, since: Instant) {
    var limit := NextDay(since.utc);
    Before(limit, t.utc) || (limit == t.utc && since.nanos < t.nanos)
  }

  /** 24 hours of nanoseconds are one day of the calendar. */
  lemma DayOfNanos(t: Instant, since: Instant)
    ensures UnixNanos(t) - UnixNanos(since) > 86_400_000_000_000 <==> MoreThanADayAfter(t, since)
  {
    NextDayCounts(since.utc);
    SameTimeOfDay(since.utc);
    CountInOrder(NextDay(since.utc), t.utc);
    hide DaysInMonth, UnixSeconds, Before, NextDay;
  }
}
