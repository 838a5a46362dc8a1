/** A single-zone proleptic Gregorian calendar: the local-time view of a JavaScript
    `Date`. An instant is a calendar day plus the milliseconds elapsed since midnight;
    two instants compare by their distance in milliseconds from 1970-01-01 00:00, as
    `Date` values (and MongoDB `$gte`/`$lte` on dates) do. */
module Calendar {

  const MsPerDay: int := 86_400_000

  /** Milliseconds since midnight of the given wall-clock time. */
  function TimeOfDay(h: int, m: int, s: int, ms: int): int {
    ((h * 60 + m) * 60 + s) * 1000 + ms
  }

  /** 23:59:59.999, what `setHours(23, 59, 59, 999)` sets. */
  const EndOfDayMs: int := TimeOfDay(23, 59, 59, 999)

  /** 23:59:59.000, what `new Date(y, m, d, 23, 59, 59)` gives. */
  const LastSecondMs: int := TimeOfDay(23, 59, 59, 0)

  predicate IsLeapYear(y: int) {
    y % 4 == 0 && (y % 100 != 0 || y % 400 == 0)
  }

  function DaysInYear(y: int): int {
    if IsLeapYear(y) then 366 else 365
  }

  /** Days in month `m` (1 = January) of year `y`. */
  function DaysInMonth(y: int, m: int): (n: int)
    requires 1 <= m <= 12
    ensures 28 <= n <= 31
    ensures n == 29 <==> m == 2 && IsLeapYear(y)
  {
    if m == 2 then (if IsLeapYear(y) then 29 else 28)
    else if m == 4 || m == 6 || m == 9 || m == 11 then 30
    else 31
  }

  datatype Moment = Moment(year: int, month: int, day: int, ms: int)

  predicate ValidMoment(t: Moment) {
    && 1 <= t.month <= 12
    && 1 <= t.day <= DaysInMonth(t.year, t.month)
    && 0 <= t.ms < MsPerDay
  }

  /** A point in local time whose fields name an existing calendar day. */
  type Instant = t: Moment | ValidMoment(t) witness Moment(1970, 1, 1, 0)

  /** Days in the months of year `y` before month `m`. */
  function DaysBeforeMonth(y: int, m: int): int
    requires 1 <= m <= 12
  {
    var common :=
      if m == 1 then 0 else if m == 2 then 31 else if m == 3 then 59
      else if m == 4 then 90 else if m == 5 then 120 else if m == 6 then 151
      else if m == 7 then 181 else if m == 8 then 212 else if m == 9 then 243
      else if m == 10 then 273 else if m == 11 then 304 else 334;
    common + (if m > 2 && IsLeapYear(y) then 1 else 0)
  }

  /** Days from 1970-01-01 to January 1 of year `y` (negative before 1970). */
  function DaysBeforeYear(y: int): int
    decreases if y < 1970 then 1970 - y else y - 1970
  {
    if y == 1970 then 0
    else if y > 1970 then DaysBeforeYear(y - 1) + DaysInYear(y - 1)
    else DaysBeforeYear(y + 1) - DaysInYear(y)
  }

  /** Days since 1970-01-01 of the calendar day of `t`. */
  function DayNumber(t: Instant): int {
    DaysBeforeYear(t.year) + DaysBeforeMonth(t.year, t.month) + t.day - 1
  }

  /** Milliseconds since 1970-01-01 00:00 local time: what `Date` values compare by. */
  function EpochMs(t: Instant): int {
    DayNumber(t) * MsPerDay + t.ms
  }

  /** `getDay()`: 0 for Sunday through 6 for Saturday (1970-01-01 was a Thursday). */
  function Weekday(t: Instant): (w: int)
    ensures 0 <= w < 7
  {
    (DayNumber(t) + 4) % 7
  }

  predicate AtOrBefore(a: Instant, b: Instant) {
    EpochMs(a) <= EpochMs(b)
  }

  predicate SameDay(a: Instant, b: Instant) {
    a.year == b.year && a.month == b.month && a.day == b.day
  }

  /** Lexicographic order on the calendar day, ignoring the time of day. */
  predicate DayBefore(a: Instant, b: Instant) {
    || a.year < b.year
    || (a.year == b.year && a.month < b.month)
    || (a.year == b.year && a.month == b.month && a.day < b.day)
  }

  lemma YearStep(y: int)
    ensures DaysBeforeYear(y + 1) == DaysBeforeYear(y) + DaysInYear(y)
  {
    if y >= 1970 {
      assert DaysBeforeYear(y + 1) == DaysBeforeYear(y) + DaysInYear(y);
    } else {
      assert DaysBeforeYear(y) == DaysBeforeYear(y + 1) - DaysInYear(y);
    }
  }

  lemma MonthStep(y: int, m: int)
    requires 1 <= m < 12
    ensures DaysBeforeMonth(y, m + 1) == DaysBeforeMonth(y, m) + DaysInMonth(y, m)
  {
  }

  lemma LastMonthStep(y: int)
    ensures DaysBeforeMonth(y, 12) + DaysInMonth(y, 12) == DaysInYear(y)
  {
  }

  /** The day after `t`, at the same time of day. */
  function NextDay(t: Instant): (r: Instant)
    ensures r.ms == t.ms
    ensures DayNumber(r) == DayNumber(t) + 1
  {
    if t.day < DaysInMonth(t.year, t.month) then
      Moment(t.year, t.month, t.day + 1, t.ms)
    else if t.month < 12 then
      MonthStep(t.year, t.month);
      Moment(t.year, t.month + 1, 1, t.ms)
    else
      YearStep(t.year);
      LastMonthStep(t.year);
      Moment(t.year + 1, 1, 1, t.ms)
  }

  /** The day before `t`, at the same time of day. */
  function PrevDay(t: Instant): (r: Instant)
    ensures r.ms == t.ms
    ensures DayNumber(r) == DayNumber(t) - 1
  {
    if t.day > 1 then
      Moment(t.year, t.month, t.day - 1, t.ms)
    else if t.month > 1 then
      MonthStep(t.year, t.month - 1);
      Moment(t.year, t.month - 1, DaysInMonth(t.year, t.month - 1), t.ms)
    else
      YearStep(t.year - 1);
      LastMonthStep(t.year - 1);
      Moment(t.year - 1, 12, 31, t.ms)
  }

  /** `t` moved by `n` whole days (backwards when `n` is negative), crossing month and
      year boundaries as `Date` does. */
  function AddDays(t: Instant, n: int): (r: Instant)
    ensures r.ms == t.ms
    ensures DayNumber(r) == DayNumber(t) + n
    decreases if n < 0 then -n else n
  {
    if n == 0 then t
    else if n > 0 then AddDays(NextDay(t), n - 1)
    else AddDays(PrevDay(t), n + 1)
  }

  /** `t.setDate(n)`: day `n` of the month of `t`, where day 0 is the last day of the
      previous month and days past the end run into the next month. */
  function SetDate(t: Instant, n: int): (r: Instant)
    ensures r.ms == t.ms
    ensures DayNumber(r) == DayNumber(t) + (n - t.day)
  {
    AddDays(Moment(t.year, t.month, 1, t.ms), n - 1)
  }

  /** `t.setHours(...)` with a time of day in range: same day, new time of day. */
  function SetTime(t: Instant, ms: int): (r: Instant)
    requires 0 <= ms < MsPerDay
    ensures SameDay(r, t) && r.ms == ms
    ensures DayNumber(r) == DayNumber(t)
  {
    Moment(t.year, t.month, t.day, ms)
  }

  /** The year `new Date(y, ...)` reads: years 0 through 99 stand for 1900 through 1999. */
  predicate TwoDigitYear(y: int) {
    0 <= y <= 99
  }

  function FullYear(y: int): int {
    if TwoDigitYear(y) then 1900 + y else y
  }

  /** `new Date(y, monthIndex, d, ...)`: a two-digit `y` is read as a year of the 1900s;
      the month index counts from 0 and, like the day, rolls over into neighbouring
      years and months when out of range. */
  function MakeDate(y: int, monthIndex: int, d: int, ms: int): (r: Instant)
    requires 0 <= ms < MsPerDay
    ensures r.ms == ms
    ensures
      var year := FullYear(y) + monthIndex / 12;
      DayNumber(r) == DaysBeforeYear(year) + DaysBeforeMonth(year, monthIndex % 12 + 1) + d - 1
  {
    AddDays(Moment(FullYear(y) + monthIndex / 12, monthIndex % 12 + 1, 1, ms), d - 1)
  }

  /** `new Date(24, 2, 1)` is March 1, 1924, not March 1 of the year 24. */
  lemma TwoDigitYearIsNineteenHundreds()
    ensures MakeDate(24, 2, 1, 0) == Moment(1924, 3, 1, 0)
    ensures MakeDate(100, 2, 1, 0) == Moment(100, 3, 1, 0)
  {
    FirstOfMonth(24, 3);
    FirstOfMonth(100, 3);
  }

  /** `new Date(y, m - 1, 1)` is midnight of the first day of month `m` of the year `y`
      is read as. */
  lemma FirstOfMonth(y: int, m: int)
    requires 1 <= m <= 12
    ensures MakeDate(y, m - 1, 1, 0) == Moment(FullYear(y), m, 1, 0)
  {
  }

  /** `new Date(y, 0, 1)` is midnight of January 1. */
  lemma FirstOfYear(y: int)
    ensures MakeDate(y, 0, 1, 0) == Moment(FullYear(y), 1, 1, 0)
  {
    FirstOfMonth(y, 1);
  }

  /** `new Date(y, 11, 31, ...)` is December 31 of the year `y` is read as. */
  lemma LastOfYear(y: int, ms: int)
    requires 0 <= ms < MsPerDay
    ensures MakeDate(y, 11, 31, ms) == Moment(FullYear(y), 12, 31, ms)
  {
    var e: Instant := Moment(FullYear(y), 12, 31, ms);
    DayNumberOrder(MakeDate(y, 11, 31, ms), e);
  }

  /** The "day 0 of next month" idiom: `new Date(y, m, 0, ...)`, with `m` the 1-based
      number of the current month (so the 0-based index of the next), is the last
      calendar day of month `m`, December included. */
  lemma {:induction false} DayZeroIsLastDay(y: int, m: int, ms: int)
    requires 1 <= m <= 12 && 0 <= ms < MsPerDay
    ensures MakeDate(y, m, 0, ms) == Moment(FullYear(y), m, DaysInMonth(FullYear(y), m), ms)
  {
    var first: Instant := Moment(FullYear(y) + m / 12, m % 12 + 1, 1, ms);
    assert AddDays(first, -1) == AddDays(PrevDay(first), 0);
  }

  /** Comparing instants is comparing calendar days first and times of day second. */
  lemma EpochOrder(a: Instant, b: Instant)
    ensures AtOrBefore(a, b) <==> DayNumber(a) < DayNumber(b) || (DayNumber(a) == DayNumber(b) && a.ms <= b.ms)
  {
    if DayNumber(a) < DayNumber(b) {
      assert EpochMs(a) < (DayNumber(a) + 1) * MsPerDay <= EpochMs(b);
    } else if DayNumber(a) > DayNumber(b) {
      assert EpochMs(b) < (DayNumber(b) + 1) * MsPerDay <= EpochMs(a);
    }
  }

  lemma {:induction false} YearStartsIncrease(y1: int, y2: int)
    requires y1 < y2
    ensures DaysBeforeYear(y1) + DaysInYear(y1) <= DaysBeforeYear(y2)
    decreases y2 - y1
  {
    YearStep(y1);
    if y1 + 1 < y2 {
      YearStartsIncrease(y1 + 1, y2);
    }
  }

  lemma {:induction false} MonthStartsIncrease(y: int, m1: int, m2: int)
    requires 1 <= m1 < m2 <= 12
    ensures DaysBeforeMonth(y, m1) + DaysInMonth(y, m1) <= DaysBeforeMonth(y, m2)
    decreases m2 - m1
  {
    MonthStep(y, m1);
    if m1 + 1 < m2 {
      MonthStartsIncrease(y, m1 + 1, m2);
    }
  }

  /** The day of `t` lies within its year. */
  lemma DayWithinYear(t: Instant)
    ensures DaysBeforeYear(t.year) <= DayNumber(t) < DaysBeforeYear(t.year) + DaysInYear(t.year)
  {
    LastMonthStep(t.year);
    if t.month < 12 {
      MonthStartsIncrease(t.year, t.month, 12);
    }
  }

  /** Day numbers follow the calendar order of days. */
  lemma DayNumberMonotone(a: Instant, b: Instant)
    requires DayBefore(a, b)
    ensures DayNumber(a) < DayNumber(b)
  {
    if a.year < b.year {
      DayWithinYear(a);
      DayWithinYear(b);
      YearStartsIncrease(a.year, b.year);
    } else if a.month < b.month {
      MonthStartsIncrease(a.year, a.month, b.month);
    }
  }

  /** Day numbers identify calendar days, and their order is the calendar order. */
  lemma DayNumberOrder(a: Instant, b: Instant)
    ensures DayNumber(a) == DayNumber(b) <==> SameDay(a, b)
    ensures DayNumber(a) < DayNumber(b) <==> DayBefore(a, b)
  {
    if DayBefore(a, b) {
      DayNumberMonotone(a, b);
    } else if DayBefore(b, a) {
      DayNumberMonotone(b, a);
    }
  }

  /** An instant on an earlier calendar day, or on the same day no later in it, comes
      no later. */
  lemma CalendarOrder(a: Instant, b: Instant)
    requires DayBefore(a, b) || (SameDay(a, b) && a.ms <= b.ms)
    ensures AtOrBefore(a, b)
  {
    DayNumberOrder(a, b);
    EpochOrder(a, b);
  }

  /** The week containing `t` starts `Weekday(t)` days earlier, on a Sunday. */
  lemma WeekStartIsSunday(t: Instant, s: Instant)
    requires DayNumber(s) == DayNumber(t) - Weekday(t)
    ensures Weekday(s) == 0
  {
    var x := DayNumber(t) + 4;
    assert x == 7 * (x / 7) + x % 7;
    assert DayNumber(s) + 4 == 7 * (x / 7);
  }

  /** Leap days in the years from 1970 up to, not including, `y`. */
  function LeapDaysSince1970(y: int): int {
    ((y - 1) / 4 - 1969 / 4) - ((y - 1) / 100 - 1969 / 100) + ((y - 1) / 400 - 1969 / 400)
  }

  /** Passing year `z` adds one leap day exactly when `z` is a leap year. */
  lemma LeapDayStep(z: int)
    ensures LeapDaysSince1970(z + 1) == LeapDaysSince1970(z) + (DaysInYear(z) - 365)
  {
    var q4, q100, q400 := z / 4, z / 100, z / 400;
    assert z == 4 * q4 + z % 4;
    assert z == 100 * q100 + z % 100;
    assert z == 400 * q400 + z % 400;
    assert (z - 1) / 4 == if z % 4 == 0 then q4 - 1 else q4;
    assert (z - 1) / 100 == if z % 100 == 0 then q100 - 1 else q100;
    assert (z - 1) / 400 == if z % 400 == 0 then q400 - 1 else q400;
    if z % 100 == 0 {
      assert z == 4 * (25 * q100);
    }
    if z % 400 == 0 {
      assert z == 100 * (4 * q400);
    }
  }

  /** From 1970 on, a year starts 365 days per year plus one per leap year after 1970-01-01. */
  lemma {:induction false} DaysBeforeYearFrom1970(y: int)
    requires y >= 1970
    ensures DaysBeforeYear(y) == 365 * (y - 1970) + LeapDaysSince1970(y)
    decreases y
  {
    if y > 1970 {
      DaysBeforeYearFrom1970(y - 1);
      LeapDayStep(y - 1);
    }
  }

  /** Anchors of `getDay()`: January 1, 1970 was a Thursday and January 7, 2024 a Sunday. */
  lemma WeekdayAnchors()
    ensures Weekday(Moment(1970, 1, 1, 0)) == 4
    ensures Weekday(Moment(2024, 1, 7, 0)) == 0
  {
    DaysBeforeYearFrom1970(2024);
    assert LeapDaysSince1970(2024) == 13;
    assert DayNumber(Moment(2024, 1, 7, 0)) == 19729;
  }
}
