/** Calendar arithmetic of the routines panel: turning a count of days since 1970-01-01 into a
    proleptic Gregorian date (section 5.7 and Appendix C of RFC 3339). */
module Calendar {

  datatype Date = Date(year: int, month: int, day: int)

  // ----- The calendar itself -----

  predicate IsLeap(year: int) {
    year % 4 == 0 && (year % 100 != 0 || year % 400 == 0)
  }

  function YearLength(year: int): int {
    if IsLeap(year) then 366 else 365
  }

  function DaysInMonth(year: int, month: int): int {
    if month == 2 then (if IsLeap(year) then 29 else 28)
    else if month == 4 || month == 6 || month == 9 || month == 11 then 30
    else 31
  }

  predicate Valid(date: Date) {
    1 <= date.month <= 12 && 1 <= date.day <= DaysInMonth(date.year, date.month)
  }

  function NextDay(date: Date): Date {
    if date.day < DaysInMonth(date.year, date.month) then date.(day := date.day + 1)
    else if date.month < 12 then Date(date.year, date.month + 1, 1)
    else Date(date.year + 1, 1, 1)
  }

  /** Chronological order of dates. */
  predicate Before(a: Date, b: Date) {
    a.year < b.year
    || (a.year == b.year && (a.month < b.month || (a.month == b.month && a.day < b.day)))
  }

  /** Days from 1970-01-01 to the first of January, adding up one year at a time. */
  ghost function DaysBeforeYear(year: int): int
    decreases if year < 1970 then 1970 - year else year - 1970
  {
    if year == 1970 then 0
    else if year > 1970 then DaysBeforeYear(year - 1) + YearLength(year - 1)
    else DaysBeforeYear(year + 1) - YearLength(year)
  }

  /** Days from the first of January to the first of the month, adding up one month at a time. */
  ghost function DaysBeforeMonth(year: int, month: int): int
    requires 1 <= month <= 12
    decreases month
  {
    if month == 1 then 0 else DaysBeforeMonth(year, month - 1) + DaysInMonth(year, month - 1)
  }

  ghost function DayNumber(date: Date): int
    requires Valid(date)
  {
    DaysBeforeYear(date.year) + DaysBeforeMonth(date.year, date.month) + date.day - 1
  }

  // ----- The conversion -----

  /** Integer division that truncates towards zero. */
  function Quotient(a: int, b: int): int
    requires b > 0
  {
    if a >= 0 then a / b else -(-a / b)
  }

  /** The value as an unsigned 32-bit integer, or 1 when it does not fit. */
  function ToU32(value: int): int {
    if 0 <= value < 0x1_0000_0000 then value else 1
  }

  function CivilFromDays(days: int): Date {
    var shifted := days + 719_468;
    var era := shifted / 146_097;
    var dayOfEra := shifted % 146_097;
    var yearOfEra := Quotient(dayOfEra - Quotient(dayOfEra, 1_460) + Quotient(dayOfEra, 36_524)
                              - Quotient(dayOfEra, 146_096), 365);
    var year := yearOfEra + era * 400;
    var dayOfYear := dayOfEra - (365 * yearOfEra + Quotient(yearOfEra, 4) - Quotient(yearOfEra, 100));
    var shiftedMonth := Quotient(5 * dayOfYear + 2, 153);
    var day := ToU32(dayOfYear - Quotient(153 * shiftedMonth + 2, 5) + 1);
    var month := ToU32(if shiftedMonth < 10 then shiftedMonth + 3 else shiftedMonth - 9);
    Date(year + (if month <= 2 then 1 else 0), month, day)
  }

  datatype Clock = Clock(date: Date, hour: int, minute: int)

  /** The calendar fields of `format_instant`; the instant counts Unix milliseconds. */
  function FormatInstant(millis: nat): Clock {
    var seconds := millis / 1_000;
    var wholeDays := seconds / 86_400;
    var days := if wholeDays < 0x8000_0000_0000_0000 then wholeDays else 0;
    var time := seconds % 86_400;
    Clock(CivilFromDays(days), time / 3_600, time % 3_600 / 60)
  }

  // ----- Counting days in closed form -----

  /** Leap years from year 1 up to and including this one, less those skipped before year 1. */
  ghost function LeapDays(year: int): int
    decreases if year < 0 then -year else year
  {
    if year == 0 then 0
    else if year > 0 then LeapDays(year - 1) + (if IsLeap(year) then 1 else 0)
    else LeapDays(year + 1) - (if IsLeap(year + 1) then 1 else 0)
  }

  /** Quotient and remainder read off a written-out division. */
  lemma DivMod(value: int, divisor: int, quotient: int, remainder: int)
    requires divisor == 4 || divisor == 100 || divisor == 400
    requires 0 <= remainder < divisor && value == divisor * quotient + remainder
    ensures value / divisor == quotient && value % divisor == remainder
  {
    if divisor == 4 {
      assert value / 4 == quotient;
    } else if divisor == 100 {
      assert value / 100 == quotient;
    } else {
      assert value / 400 == quotient;
    }
  }

  lemma LeapIsDivision(year: int)
    ensures year / 4 - year / 100 + year / 400
         == (year - 1) / 4 - (year - 1) / 100 + (year - 1) / 400 + (if IsLeap(year) then 1 else 0)
  {
    Predecessor(year, 4);
    Predecessor(year, 100);
    Predecessor(year, 400);
    if year % 400 == 0 {
      DivMod(year, 100, 4 * (year / 400), 0);
    }
    if year % 100 == 0 {
      DivMod(year, 4, 25 * (year / 100), 0);
    }
  }

  lemma Predecessor(year: int, cycle: int)
    requires cycle == 4 || cycle == 100 || cycle == 400
    ensures year / cycle == (year - 1) / cycle + (if year % cycle == 0 then 1 else 0)
  {
    var q, r := year / cycle, year % cycle;
    assert year == cycle * q + r;
    if r == 0 {
      DivMod(year - 1, cycle, q - 1, cycle - 1);
    } else {
      DivMod(year - 1, cycle, q, r - 1);
    }
  }

  lemma {:induction false} LeapDaysClosed(year: int)
    ensures LeapDays(year) == year / 4 - year / 100 + year / 400
    decreases if year < 0 then -year else year
  {
    if year > 0 {
      LeapDaysClosed(year - 1);
      LeapIsDivision(year);
    } else if year < 0 {
      LeapDaysClosed(year + 1);
      LeapIsDivision(year + 1);
    }
  }

  lemma {:induction false} DaysBeforeYearClosed(year: int)
    ensures DaysBeforeYear(year) == 365 * year + LeapDays(year - 1) - 719_527
    decreases if year < 1970 then 1970 - year else year - 1970
  {
    if year > 1970 {
      DaysBeforeYearClosed(year - 1);
    } else if year < 1970 {
      DaysBeforeYearClosed(year + 1);
    } else {
      LeapDaysClosed(1969);
    }
  }

  lemma DaysBeforeMonthClosed(year: int, month: int)
    requires 1 <= month <= 12
    ensures month <= 2 ==> DaysBeforeMonth(year, month) == 31 * (month - 1)
    ensures month > 2 ==>
      DaysBeforeMonth(year, month) == (if IsLeap(year) then 60 else 59) + (153 * (month - 3) + 2) / 5
    decreases month
  {
    if month > 1 {
      DaysBeforeMonthClosed(year, month - 1);
    }
  }

  /** Every day of a 400-year era sits in one century, four-year cycle and March-based year. */
  lemma EraDecomposition(dayOfEra: int) returns (c: int, q: int, r: int, d: int)
    requires 0 <= dayOfEra < 146_097
    ensures 0 <= c <= 3 && 0 <= q <= 24 && 0 <= r <= 3 && 0 <= d <= 365
    ensures d == 365 ==> r == 3 && (q < 24 || c == 3)
    ensures dayOfEra == 36_524 * c + 1_461 * q + 365 * r + d
  {
    c := if dayOfEra == 146_096 then 3 else dayOfEra / 36_524;
    var inCentury := dayOfEra - 36_524 * c;
    q := inCentury / 1_461;
    var inCycle := inCentury - 1_461 * q;
    r := if inCycle == 1_460 then 3 else inCycle / 365;
    d := inCycle - 365 * r;
  }

  /** The nested divisions find the March-based year of the era. */
  lemma YearOfEraIsRight(dayOfEra: int, c: int, q: int, r: int, d: int)
    requires 0 <= c <= 3 && 0 <= q <= 24 && 0 <= r <= 3 && 0 <= d <= 365
    requires d == 365 ==> r == 3 && (q < 24 || c == 3)
    requires dayOfEra == 36_524 * c + 1_461 * q + 365 * r + d
    ensures 0 <= dayOfEra - dayOfEra / 1_460 + dayOfEra / 36_524 - dayOfEra / 146_096
    ensures (dayOfEra - dayOfEra / 1_460 + dayOfEra / 36_524 - dayOfEra / 146_096) / 365
         == 100 * c + 4 * q + r
  {
    assert dayOfEra / 36_524 - dayOfEra / 146_096 == c;
    var carry := if 24 * c + q + 365 * r + d >= 1_460 then 1 else 0;
    assert dayOfEra == 1_460 * (25 * c + q) + (24 * c + q + 365 * r + d);
    assert dayOfEra / 1_460 == 25 * c + q + carry;
    assert 0 <= d - carry < 365;
  }

  /** A March-based year holds the days from its first of March up to the next. */
  lemma MonthOfYearIsRight(dayOfYear: int, shiftedMonth: int)
    requires 0 <= dayOfYear <= 365
    requires shiftedMonth == (5 * dayOfYear + 2) / 153
    ensures 0 <= shiftedMonth <= 11
    ensures 0 <= dayOfYear - (153 * shiftedMonth + 2) / 5
    ensures shiftedMonth < 11 ==> dayOfYear < (153 * (shiftedMonth + 1) + 2) / 5
  {}

  lemma LeapYearEndsCycle(era: int, c: int, q: int, r: int)
    requires 0 <= c <= 3 && 0 <= q <= 24 && r == 3 && (q < 24 || c == 3)
    ensures IsLeap(400 * era + 100 * c + 4 * q + r + 1)
  {
    var year := 400 * era + 100 * c + 4 * q + r + 1;
    DivMod(year, 4, 100 * era + 25 * c + q + 1, 0);
    if q < 24 {
      DivMod(year, 100, 4 * era + c, 4 * (q + 1));
    } else {
      DivMod(year, 400, era + 1, 0);
    }
  }

  // ----- Main results -----

  /** The calendar date of a day counted from the first of March. */
  ghost function FromMarch(marchYear: int, dayOfYear: int): Date {
    var shiftedMonth := (5 * dayOfYear + 2) / 153;
    var month := if shiftedMonth < 10 then shiftedMonth + 3 else shiftedMonth - 9;
    Date(if month <= 2 then marchYear + 1 else marchYear, month, dayOfYear - (153 * shiftedMonth + 2) / 5 + 1)
  }

  /** Every day of a March-based year exists, and counting days finds it again. */
  lemma FromMarchIsRight(marchYear: int, dayOfYear: int)
    requires 0 <= dayOfYear <= 365
    requires dayOfYear == 365 ==> IsLeap(marchYear + 1)
    ensures Valid(FromMarch(marchYear, dayOfYear))
    ensures DayNumber(FromMarch(marchYear, dayOfYear))
         == 365 * marchYear + LeapDays(marchYear) + dayOfYear - 719_468
  {
    var date := FromMarch(marchYear, dayOfYear);
    MonthOfYearIsRight(dayOfYear, (5 * dayOfYear + 2) / 153);
    DaysBeforeYearClosed(date.year);
    DaysBeforeMonthClosed(date.year, date.month);
  }

  lemma ConversionUnfolds(days: int, era: int, dayOfEra: int, yearOfEra: int, dayOfYear: int)
    requires era == (days + 719_468) / 146_097 && dayOfEra == (days + 719_468) % 146_097
    requires 0 <= dayOfEra - dayOfEra / 1_460 + dayOfEra / 36_524 - dayOfEra / 146_096
    requires yearOfEra == (dayOfEra - dayOfEra / 1_460 + dayOfEra / 36_524 - dayOfEra / 146_096) / 365
    requires dayOfYear == dayOfEra - (365 * yearOfEra + yearOfEra / 4 - yearOfEra / 100)
    requires 0 <= yearOfEra && 0 <= dayOfYear <= 365
    ensures CivilFromDays(days) == FromMarch(yearOfEra + era * 400, dayOfYear)
  {
    MonthOfYearIsRight(dayOfYear, (5 * dayOfYear + 2) / 153);
  }

  lemma EraYearIsRight(days: int) returns (marchYear: int, dayOfYear: int)
    ensures 0 <= dayOfYear <= 365
    ensures dayOfYear == 365 ==> IsLeap(marchYear + 1)
    ensures days + 719_468 == 365 * marchYear + LeapDays(marchYear) + dayOfYear
    ensures CivilFromDays(days) == FromMarch(marchYear, dayOfYear)
  {
    var shifted := days + 719_468;
    var era, dayOfEra := shifted / 146_097, shifted % 146_097;
    var c, q, r, d := EraDecomposition(dayOfEra);
    YearOfEraIsRight(dayOfEra, c, q, r, d);
    var yearOfEra := 100 * c + 4 * q + r;
    DivMod(yearOfEra, 4, 25 * c + q, r);
    DivMod(yearOfEra, 100, c, 4 * q + r);
    marchYear, dayOfYear := 400 * era + yearOfEra, d;
    ConversionUnfolds(days, era, dayOfEra, yearOfEra, d);
    LeapDaysOfEraYear(era, c, q, r);
    if d == 365 {
      LeapYearEndsCycle(era, c, q, r);
    }
  }

  lemma LeapDaysOfEraYear(era: int, c: int, q: int, r: int)
    requires 0 <= c <= 3 && 0 <= q <= 24 && 0 <= r <= 3
    ensures LeapDays(400 * era + 100 * c + 4 * q + r) == 97 * era + 24 * c + q
  {
    var year := 400 * era + 100 * c + 4 * q + r;
    LeapDaysClosed(year);
    DivMod(year, 4, 100 * era + 25 * c + q, r);
    DivMod(year, 100, 4 * era + c, 4 * q + r);
    DivMod(year, 400, era, 100 * c + 4 * q + r);
  }

  /** Every day number, before or after 1970, becomes an existing calendar date that lies exactly
      that many days from 1970-01-01. */
  lemma CivilFromDaysCountsDays(days: int)
    ensures Valid(CivilFromDays(days))
    ensures DayNumber(CivilFromDays(days)) == days
  {
    var marchYear, dayOfYear := EraYearIsRight(days);
    FromMarchIsRight(marchYear, dayOfYear);
  }

  lemma NextDayCounts(date: Date)
    requires Valid(date)
    ensures Valid(NextDay(date))
    ensures DayNumber(NextDay(date)) == DayNumber(date) + 1
  {
    DaysBeforeMonthClosed(date.year, 12);
    DaysBeforeYearClosed(date.year);
    DaysBeforeYearClosed(date.year + 1);
  }

  /** Counting days orders dates chronologically, so it identifies them. */
  lemma DayNumberIsMonotone(a: Date, b: Date)
    requires Valid(a) && Valid(b) && Before(a, b)
    ensures DayNumber(a) < DayNumber(b)
  {
    DaysBeforeMonthClosed(a.year, a.month);
    DaysBeforeMonthClosed(b.year, b.month);
    if a.year < b.year {
      DaysBeforeYearClosed(a.year);
      DaysBeforeYearClosed(b.year);
      LeapDaysGrow(a.year, b.year - 1);
    }
  }

  lemma {:induction false} LeapDaysGrow(early: int, late: int)
    requires early <= late
    ensures LeapDays(early) <= LeapDays(late)
    decreases late - early
  {
    if early < late {
      LeapDaysGrow(early, late - 1);
    }
  }

  /** The conversion and the day count are inverse to each other, on all integers and all dates. */
  lemma CivilFromDaysInvertsDayNumber(date: Date)
    requires Valid(date)
    ensures CivilFromDays(DayNumber(date)) == date
  {
    var found := CivilFromDays(DayNumber(date));
    CivilFromDaysCountsDays(DayNumber(date));
    if Before(found, date) {
      DayNumberIsMonotone(found, date);
    } else if Before(date, found) {
      DayNumberIsMonotone(date, found);
    }
  }

  lemma DayZeroIsEpoch()
    ensures CivilFromDays(0) == Date(1970, 1, 1)
  {
    CivilFromDaysInvertsDayNumber(Date(1970, 1, 1));
  }

  lemma NextNumberIsNextDay(days: int, today: Date)
    requires Valid(today) && DayNumber(today) == days
    ensures CivilFromDays(days + 1) == NextDay(today)
  {
    NextDayCounts(today);
    CivilFromDaysInvertsDayNumber(NextDay(today));
  }

  /** Day 0 is the Unix epoch and each following day is the calendar successor. */
  lemma CivilFromDaysStepsThroughCalendar(days: int)
    ensures CivilFromDays(0) == Date(1970, 1, 1)
    ensures CivilFromDays(days + 1) == NextDay(CivilFromDays(days))
  {
    DayZeroIsEpoch();
    CivilFromDaysCountsDays(days);
    NextNumberIsNextDay(days, CivilFromDays(days));
  }

  lemma CivilFromDaysIsStrictlyIncreasing(m: int, n: int)
    ensures m < n <==> Before(CivilFromDays(m), CivilFromDays(n))
  {
    var a, b := CivilFromDays(m), CivilFromDays(n);
    CivilFromDaysCountsDays(m);
    CivilFromDaysCountsDays(n);
    if Before(a, b) {
      DayNumberIsMonotone(a, b);
    } else if Before(b, a) {
      DayNumberIsMonotone(b, a);
    }
  }

  /** A rendered instant is the minute that contains it, for every 64-bit Unix millisecond count, and
      the day count never leaves the 64-bit range on the way. */
  lemma FormatInstantNamesTheMinute(millis: nat)
    requires millis < 0x1_0000_0000_0000_0000
    ensures var clock := FormatInstant(millis);
      && Valid(clock.date) && 0 <= clock.hour < 24 && 0 <= clock.minute < 60
      && var start := (DayNumber(clock.date) * 1_440 + clock.hour * 60 + clock.minute) * 60_000;
         start <= millis < start + 60_000
    ensures millis / 1_000 / 86_400 + 719_468 < 0x8000_0000_0000_0000
  {
    CivilFromDaysCountsDays(millis / 1_000 / 86_400);
  }
}
