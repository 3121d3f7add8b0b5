/** The proleptic Gregorian calendar behind `datetime.astimezone(timezone.utc)`:
    an offset of less than a day moves a local date by at most one day. */
module Calendar {
  import opened Prelude

  const MIN_YEAR := 1
  const MAX_YEAR := 9999
  const MINUTES_IN_A_DAY := 1440
  const MICROS_IN_A_MINUTE := 60_000_000

  datatype Date = Date(year: int, month: int, day: int)

  datatype DateTime = DateTime(date: Date, hour: int, minute: int, second: int, micro: int)

  predicate IsLeap(year: int) {
    year % 4 == 0 && (year % 100 != 0 || year % 400 == 0)
  }

  function DaysInMonth(year: int, month: int): int {
    if month == 2 then (if IsLeap(year) then 29 else 28)
    else if month == 4 || month == 6 || month == 9 || month == 11 then 30
    else 31
  }

  /** A real calendar day of any year, also one outside the supported range. */
  predicate IsDay(d: Date) {
    1 <= d.month <= 12 && 1 <= d.day <= DaysInMonth(d.year, d.month)
  }

  predicate InRange(d: Date) {
    MIN_YEAR <= d.year <= MAX_YEAR
  }

  predicate ValidClock(t: DateTime) {
    0 <= t.hour < 24 && 0 <= t.minute < 60 && 0 <= t.second < 60 && 0 <= t.micro < 1_000_000
  }

  predicate ValidDateTime(t: DateTime) {
    IsDay(t.date) && InRange(t.date) && ValidClock(t)
  }

  type UtcTime = t: DateTime | ValidDateTime(t) witness DateTime(Date(MIN_YEAR, 1, 1), 0, 0, 0, 0)

  function NextDay(d: Date): Date {
    if d.day < DaysInMonth(d.year, d.month) then d.(day := d.day + 1)
    else if d.month < 12 then Date(d.year, d.month + 1, 1)
    else Date(d.year + 1, 1, 1)
  }

  function PreviousDay(d: Date): Date {
    if d.day > 1 then d.(day := d.day - 1)
    else if d.month > 1 then Date(d.year, d.month - 1, DaysInMonth(d.year, d.month - 1))
    else Date(d.year - 1, 12, 31)
  }

  /** Subtract a UTC offset, in minutes, carrying into the neighbouring day; `None` is the
      OverflowError of a result outside the years 1 to 9999. */
  function ToUtc(local: DateTime, offset: int): Option<DateTime> {
    var minutes := local.hour * 60 + local.minute - offset;
    var date := if minutes < 0 then PreviousDay(local.date)
                else if minutes >= MINUTES_IN_A_DAY then NextDay(local.date)
                else local.date;
    var rest := if minutes < 0 then minutes + MINUTES_IN_A_DAY
                else if minutes >= MINUTES_IN_A_DAY then minutes - MINUTES_IN_A_DAY
                else minutes;
    if InRange(date) then Some(DateTime(date, rest / 60, rest % 60, local.second, local.micro))
    else None
  }

  // ----- reference: counting days instead of carrying them -----

  function DaysBeforeYear(year: int): int {
    var y := year - 1;
    y * 365 + y / 4 - y / 100 + y / 400
  }

  function DaysBeforeMonth(year: int, month: int): int
    decreases month
  {
    if month <= 1 then 0 else DaysBeforeMonth(year, month - 1) + DaysInMonth(year, month - 1)
  }

  function Ordinal(d: Date): int {
    DaysBeforeYear(d.year) + DaysBeforeMonth(d.year, d.month) + d.day
  }

  /** Microseconds since the start of day 0, the meaning of a wall-clock reading. */
  function Instant(t: DateTime): int {
    (Ordinal(t.date) * MINUTES_IN_A_DAY + t.hour * 60 + t.minute) * MICROS_IN_A_MINUTE
    + t.second * 1_000_000 + t.micro
  }

  lemma YearLength(year: int)
    ensures DaysBeforeYear(year + 1) == DaysBeforeYear(year) + if IsLeap(year) then 366 else 365
  {
    var y := year - 1;
    assert (y + 1) / 4 == y / 4 + if year % 4 == 0 then 1 else 0;
    assert (y + 1) / 100 == y / 100 + if year % 100 == 0 then 1 else 0;
    assert (y + 1) / 400 == y / 400 + if year % 400 == 0 then 1 else 0;
    assert year % 400 == 0 ==> year % 100 == 0;
    assert year % 100 == 0 ==> year % 4 == 0;
  }

  /** The calendar repeats after 400 years, which have 97 leap days. */
  lemma FourCenturies(year: int)
    ensures DaysBeforeYear(year + 400) == DaysBeforeYear(year) + 400 * 365 + 97
  {
    var y := year - 1;
    assert (y + 400) / 4 == y / 4 + 100;
    assert (y + 400) / 100 == y / 100 + 4;
    assert (y + 400) / 400 == y / 400 + 1;
  }

  lemma MonthTable(year: int)
    ensures DaysBeforeMonth(year, 12) + 31 == if IsLeap(year) then 366 else 365
  {
  }

  const DAYS_BEFORE_MONTH := [0, 31, 59, 90, 120, 151, 181, 212, 243, 273, 304, 334]

  /** The familiar table, with the leap day from March on. */
  lemma MonthStarts(year: int, month: int)
    requires 1 <= month <= 12
    ensures DaysBeforeMonth(year, month)
            == DAYS_BEFORE_MONTH[month - 1] + if month > 2 && IsLeap(year) then 1 else 0
  {
    assert DaysBeforeMonth(year, 6) == 151 + if IsLeap(year) then 1 else 0;
  }

  lemma NextDayCounts(d: Date)
    requires IsDay(d)
    ensures IsDay(NextDay(d)) && Ordinal(NextDay(d)) == Ordinal(d) + 1
  {
    if d.day == DaysInMonth(d.year, d.month) && d.month == 12 {
      YearLength(d.year);
      MonthTable(d.year);
      assert DaysBeforeMonth(d.year + 1, 1) == 0;
    }
  }

  lemma PreviousDayCounts(d: Date)
    requires IsDay(d)
    ensures IsDay(PreviousDay(d)) && Ordinal(PreviousDay(d)) == Ordinal(d) - 1
  {
    if d.day == 1 && d.month == 1 {
      YearLength(d.year - 1);
      MonthTable(d.year - 1);
      assert DaysBeforeMonth(d.year, 1) == 0;
    }
  }

  lemma {:induction false} MonthsGrow(year: int, month: int, later: int)
    requires 1 <= month < later <= 12
    ensures DaysBeforeMonth(year, month) + DaysInMonth(year, month) <= DaysBeforeMonth(year, later)
    decreases later
  {
  }

  lemma {:induction false} YearsGrow(year: int, later: int)
    requires year < later
    ensures DaysBeforeYear(year) + (if IsLeap(year) then 366 else 365) <= DaysBeforeYear(later)
    decreases later - year
  {
    YearLength(year);
    if year + 1 < later {
      YearsGrow(year + 1, later);
    }
  }

  lemma WithinYear(d: Date)
    requires IsDay(d)
    ensures DaysBeforeYear(d.year) < Ordinal(d)
    ensures Ordinal(d) <= DaysBeforeYear(d.year) + if IsLeap(d.year) then 366 else 365
  {
    MonthTable(d.year);
    if d.month < 12 { MonthsGrow(d.year, d.month, 12); }
    if 1 < d.month { MonthsGrow(d.year, 1, d.month); }
  }

  /** Day numbers identify days: no two calendar days share one, and they follow the calendar. */
  lemma OrdinalOrders(a: Date, b: Date)
    requires IsDay(a) && IsDay(b)
    ensures Ordinal(a) == Ordinal(b) <==> a == b
    ensures a.year < b.year ==> Ordinal(a) < Ordinal(b)
  {
    WithinYear(a);
    WithinYear(b);
    if a.year < b.year {
      YearsGrow(a.year, b.year);
    } else if b.year < a.year {
      YearsGrow(b.year, a.year);
    } else if a.month < b.month {
      MonthsGrow(a.year, a.month, b.month);
    } else if b.month < a.month {
      MonthsGrow(a.year, b.month, a.month);
    }
  }

  lemma InstantIdentifies(a: DateTime, b: DateTime)
    requires IsDay(a.date) && ValidClock(a) && IsDay(b.date) && ValidClock(b)
    ensures Instant(a) == Instant(b) <==> a == b
  {
    OrdinalOrders(a.date, b.date);
  }

  /** The instant of a wall-clock reading at an offset. */
  function OffsetInstant(local: DateTime, offset: int): int {
    Instant(local) - offset * MICROS_IN_A_MINUTE
  }

  predicate InstantInRange(instant: int) {
    Instant(DateTime(Date(MIN_YEAR, 1, 1), 0, 0, 0, 0)) <= instant
    < Instant(DateTime(Date(MAX_YEAR + 1, 1, 1), 0, 0, 0, 0))
  }

  /** Midnights order readings as their days are ordered. */
  lemma MidnightBefore(t: DateTime, d: Date)
    requires ValidClock(t)
    ensures Instant(DateTime(d, 0, 0, 0, 0)) <= Instant(t) <==> Ordinal(d) <= Ordinal(t.date)
  {
  }

  lemma YearStarts(d: Date, year: int)
    requires IsDay(d)
    ensures Ordinal(Date(year, 1, 1)) <= Ordinal(d) <==> year <= d.year
  {
    assert IsDay(Date(year, 1, 1)) && DaysBeforeMonth(year, 1) == 0;
    if d.year < year {
      OrdinalOrders(d, Date(year, 1, 1));
    } else if year < d.year {
      OrdinalOrders(Date(year, 1, 1), d);
    } else {
      WithinYear(d);
    }
  }

  lemma YearMatchesInstant(t: DateTime)
    requires IsDay(t.date) && ValidClock(t)
    ensures InRange(t.date) <==> InstantInRange(Instant(t))
  {
    MidnightBefore(t, Date(MIN_YEAR, 1, 1));
    MidnightBefore(t, Date(MAX_YEAR + 1, 1, 1));
    YearStarts(t.date, MIN_YEAR);
    YearStarts(t.date, MAX_YEAR + 1);
  }

  /** Carrying at most one day is the same as subtracting the offset from the instant, and it
      overflows exactly when that instant lies outside the supported years. */
  lemma ToUtcKeepsInstant(local: DateTime, offset: int)
    requires IsDay(local.date) && ValidClock(local)
    requires -MINUTES_IN_A_DAY < offset < MINUTES_IN_A_DAY
    ensures ToUtc(local, offset).Some? <==> InstantInRange(OffsetInstant(local, offset))
    ensures ToUtc(local, offset).Some? ==>
              var utc := ToUtc(local, offset).value;
              ValidDateTime(utc) && Instant(utc) == OffsetInstant(local, offset)
  {
    NextDayCounts(local.date);
    PreviousDayCounts(local.date);
    var minutes := local.hour * 60 + local.minute - offset;
    var date := if minutes < 0 then PreviousDay(local.date)
                else if minutes >= MINUTES_IN_A_DAY then NextDay(local.date) else local.date;
    var rest := if minutes < 0 then minutes + MINUTES_IN_A_DAY
                else if minutes >= MINUTES_IN_A_DAY then minutes - MINUTES_IN_A_DAY else minutes;
    var utc := DateTime(date, rest / 60, rest % 60, local.second, local.micro);
    assert rest == rest / 60 * 60 + rest % 60;
    assert Instant(utc) == OffsetInstant(local, offset);
    YearMatchesInstant(utc);
  }

  /** Two spellings of one instant become the same UTC reading, or both overflow. */
  lemma SameInstantSameUtc(a: DateTime, offsetA: int, b: DateTime, offsetB: int)
    requires IsDay(a.date) && ValidClock(a) && IsDay(b.date) && ValidClock(b)
    requires -MINUTES_IN_A_DAY < offsetA < MINUTES_IN_A_DAY
    requires -MINUTES_IN_A_DAY < offsetB < MINUTES_IN_A_DAY
    ensures OffsetInstant(a, offsetA) == OffsetInstant(b, offsetB) ==> ToUtc(a, offsetA) == ToUtc(b, offsetB)
    ensures ToUtc(a, offsetA).Some? && ToUtc(a, offsetA) == ToUtc(b, offsetB) ==>
              OffsetInstant(a, offsetA) == OffsetInstant(b, offsetB)
  {
    ToUtcKeepsInstant(a, offsetA);
    ToUtcKeepsInstant(b, offsetB);
    if ToUtc(a, offsetA).Some? && ToUtc(b, offsetB).Some? {
      InstantIdentifies(ToUtc(a, offsetA).value, ToUtc(b, offsetB).value);
    }
  }
}
