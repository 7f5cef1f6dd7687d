/**
 * Gregorian dates and the expiry of billing cycles.
 * The day number of a date is the independent reference the calendar steps are proved against.
 */
module Calendar {
  import opened Base

  datatype Date = Date(year: int, month: int, day: int)

  /** A point in time: a calendar date and the nanoseconds since its midnight (UTC). */
  datatype Stamp = Stamp(date: Date, clock: int)

  const DAY := 24 * 3600 * 1_000_000_000

  predicate Leap(y: int) {
    y % 4 == 0 && (y % 100 != 0 || y % 400 == 0)
  }

  function MonthLength(y: int, m: int): (n: int)
    ensures 28 <= n <= 31
  {
    if m == 2 then if Leap(y) then 29 else 28
    else if m == 4 || m == 6 || m == 9 || m == 11 then 30
    else 31
  }

  predicate Valid(d: Date) {
    1 <= d.month <= 12 && 1 <= d.day <= MonthLength(d.year, d.month)
  }

  // ----- Day numbers -----

  function YearLength(y: int): int {
    if Leap(y) then 366 else 365
  }

  /** Days from 1 January of year 1 to 1 January of year y. */
  function DaysBeforeYear(y: int): int
    decreases if y > 1 then y - 1 else 1 - y
  {
    if y == 1 then 0
    else if y > 1 then DaysBeforeYear(y - 1) + YearLength(y - 1)
    else DaysBeforeYear(y + 1) - YearLength(y)
  }

  lemma YearStep(y: int)
    ensures DaysBeforeYear(y + 1) == DaysBeforeYear(y) + YearLength(y)
  {
  }

  function InCycles(y: int): int {
    365 * (y - 1) + (y - 1) / 4 - (y - 1) / 100 + (y - 1) / 400
  }

  lemma LeapCount(y: int)
    ensures (if y % 4 == 0 then 1 else 0) - (if y % 100 == 0 then 1 else 0) + (if y % 400 == 0 then 1 else 0)
         == YearLength(y) - 365
  {
    if y % 400 == 0 {
      assert y == 100 * (4 * (y / 400));
    }
    if y % 100 == 0 {
      assert y == 4 * (25 * (y / 100));
    }
  }

  lemma CycleStep(y: int)
    ensures InCycles(y + 1) == InCycles(y) + YearLength(y)
  {
    LeapCount(y);
    DivStep(y, 4);
    DivStep(y, 100);
    DivStep(y, 400);
  }

  lemma DivStep(y: int, n: int)
    requires n in {4, 100, 400}
    ensures y / n == (y - 1) / n + if y % n == 0 then 1 else 0
  {
  }

  /** The Gregorian count of leap years in closed form, before and after year 1. */
  lemma {:induction false} YearsInCycles(y: int)
    ensures DaysBeforeYear(y) == InCycles(y)
    decreases if y > 1 then y - 1 else 1 - y
  {
    if y > 1 {
      YearsInCycles(y - 1);
      CycleStep(y - 1);
    } else if y < 1 {
      YearsInCycles(y + 1);
      CycleStep(y);
    }
  }

  /** Days before the first of month m in year y. */
  function DaysBeforeMonth(y: int, m: int): int {
    if m <= 1 then 0 else DaysBeforeMonth(y, m - 1) + MonthLength(y, m - 1)
  }

  function DayNumber(d: Date): int {
    DaysBeforeYear(d.year) + DaysBeforeMonth(d.year, d.month) + d.day
  }

  /** The months of a common year, before which a leap year has one day more from March on. */
  const BEFORE_MONTH := [0, 31, 59, 90, 120, 151, 181, 212, 243, 273, 304, 334, 365]

  lemma {:induction false} MonthTable(y: int, m: int)
    requires 1 <= m <= 13
    ensures DaysBeforeMonth(y, m) == BEFORE_MONTH[m - 1] + if Leap(y) && m > 2 then 1 else 0
  {
    if m > 1 {
      MonthTable(y, m - 1);
    }
  }

  lemma MonthsOfYear(y: int)
    ensures DaysBeforeMonth(y, 13) == YearLength(y)
    ensures forall m :: 1 <= m <= 12 ==> 0 <= DaysBeforeMonth(y, m) <= DaysBeforeMonth(y, 13) - MonthLength(y, m)
    ensures forall m :: 1 <= m <= 12 ==> DaysBeforeMonth(y, m + 1) == DaysBeforeMonth(y, m) + MonthLength(y, m)
  {
    MonthTable(y, 13);
    forall m | 1 <= m <= 12
      ensures 0 <= DaysBeforeMonth(y, m) <= DaysBeforeMonth(y, 13) - MonthLength(y, m)
    {
      MonthTable(y, m);
      MonthTable(y, m + 1);
    }
  }

  /**
   * The day number in one closed expression, with years counted from March so that a leap day comes last: an
   * independent form of the calendar, month lengths included.
   */
  lemma DayNumberClosed(d: Date)
    requires Valid(d)
    ensures var y, m := if d.month <= 2 then d.year - 1 else d.year, (d.month + 9) % 12;
            DayNumber(d) == 365 * y + y / 4 - y / 100 + y / 400 + (153 * m + 2) / 5 + d.day - 306
  {
    YearsInCycles(d.year);
    MonthTable(d.year, d.month);
    LeapCount(d.year);
    DivStep(d.year, 4);
    DivStep(d.year, 100);
    DivStep(d.year, 400);
    FromMarch(d.month);
  }

  lemma FromMarch(m: int)
    requires 1 <= m <= 12
    ensures (153 * ((m + 9) % 12) + 2) / 5 == BEFORE_MONTH[m - 1] + if m <= 2 then 306 else -59
  {
  }

  /** Which dates there are. */
  lemma ValidDates(y: int, m: int)
    ensures Valid(Date(y, m, 28)) <==> 1 <= m <= 12
    ensures Valid(Date(y, m, 30)) <==> 1 <= m <= 12 && m != 2
    ensures Valid(Date(y, m, 31)) <==> m in {1, 3, 5, 7, 8, 10, 12}
    ensures Valid(Date(y, 2, 29)) <==> y % 400 == 0 || (y % 4 == 0 && y % 100 != 0)
  {
  }

  // ----- Order -----

  predicate Before(a: Date, b: Date) {
    a.year < b.year || (a.year == b.year && (a.month < b.month || (a.month == b.month && a.day < b.day)))
  }

  lemma {:induction false} YearsGrow(y: int, z: int)
    requires y < z
    ensures DaysBeforeYear(y) + YearLength(y) <= DaysBeforeYear(z)
    decreases z - y
  {
    YearStep(z - 1);
    if y < z - 1 {
      YearsGrow(y, z - 1);
    } else {
      YearStep(y);
    }
  }

  lemma {:induction false} MonthsGrow(y: int, m: int, n: int)
    requires 1 <= m < n
    ensures DaysBeforeMonth(y, m) + MonthLength(y, m) <= DaysBeforeMonth(y, n)
    decreases n - m
  {
    if m < n - 1 {
      MonthsGrow(y, m, n - 1);
    }
  }

  lemma BeforeSmaller(a: Date, b: Date)
    requires Valid(a) && Valid(b) && Before(a, b)
    ensures DayNumber(a) < DayNumber(b)
  {
    if a.year < b.year {
      YearsGrow(a.year, b.year);
      MonthsOfYear(a.year);
      MonthsOfYear(b.year);
    } else if a.month < b.month {
      MonthsGrow(a.year, a.month, b.month);
    }
  }

  /** Calendar order is day-number order, so a date is determined by its day number. */
  lemma OrderIsDayOrder(a: Date, b: Date)
    requires Valid(a) && Valid(b)
    ensures Before(a, b) <==> DayNumber(a) < DayNumber(b)
    ensures a == b <==> DayNumber(a) == DayNumber(b)
  {
    if Before(a, b) {
      BeforeSmaller(a, b);
    } else if a != b {
      BeforeSmaller(b, a);
    }
  }

  // ----- Steps of one day -----

  function NextDay(d: Date): Date {
    if d.day < MonthLength(d.year, d.month) then Date(d.year, d.month, d.day + 1)
    else if d.month < 12 then Date(d.year, d.month + 1, 1)
    else Date(d.year + 1, 1, 1)
  }

  function PrevDay(d: Date): Date {
    if d.day > 1 then Date(d.year, d.month, d.day - 1)
    else if d.month > 1 then Date(d.year, d.month - 1, MonthLength(d.year, d.month - 1))
    else Date(d.year - 1, 12, 31)
  }

  lemma NextDayCounts(d: Date)
    requires Valid(d)
    ensures Valid(NextDay(d)) && DayNumber(NextDay(d)) == DayNumber(d) + 1
  {
    if d.day == MonthLength(d.year, d.month) && d.month == 12 {
      YearStep(d.year);
      MonthTable(d.year, 12);
    }
  }

  lemma PrevDayCounts(d: Date)
    requires Valid(d)
    ensures Valid(PrevDay(d)) && DayNumber(PrevDay(d)) == DayNumber(d) - 1
    ensures NextDay(PrevDay(d)) == d
  {
    if d.day == 1 && d.month == 1 {
      YearStep(d.year - 1);
      MonthTable(d.year - 1, 12);
    }
  }

  function AddDays(d: Date, n: nat): Date {
    if n == 0 then d else NextDay(AddDays(d, n - 1))
  }

  lemma {:induction false} AddDaysCounts(d: Date, n: nat)
    requires Valid(d)
    ensures Valid(AddDays(d, n)) && DayNumber(AddDays(d, n)) == DayNumber(d) + n
  {
    if n > 0 {
      AddDaysCounts(d, n - 1);
      NextDayCounts(AddDays(d, n - 1));
    }
  }

  // ----- Months -----

  /** Position of a month on the line of all months. */
  function MonthIndex(y: int, m: int): int {
    12 * y + m - 1
  }

  /** time.Date brings an out-of-range month into 1..12 by carrying years. */
  function NormalMonth(y: int, m: int): Date {
    Date(MonthIndex(y, m) / 12, MonthIndex(y, m) % 12 + 1, 1)
  }

  /** Day zero of the following month: its first day, less one. */
  function DaysInMonth(y: int, m: int): int {
    PrevDay(NormalMonth(y, m + 1)).day
  }

  lemma DaysInMonthIsLength(y: int, m: int)
    requires 1 <= m <= 12
    ensures DaysInMonth(y, m) == MonthLength(y, m)
    ensures DayNumber(NormalMonth(y, m + 1)) - DayNumber(Date(y, m, 1)) == DaysInMonth(y, m)
  {
    MonthsOfYear(y);
    YearStep(y);
    assert NormalMonth(y, m + 1) == if m == 12 then Date(y + 1, 1, 1) else Date(y, m + 1, 1);
  }

  function Min(a: int, b: int): int {
    if a < b then a else b
  }

  /** What adding months with clamping promises: exactly n months later, on the same day or the last. */
  predicate MonthsLater(d: Date, n: int, r: Date) {
    && Valid(r)
    && MonthIndex(r.year, r.month) == MonthIndex(d.year, d.month) + n
    && r.day == Min(d.day, MonthLength(r.year, r.month))
  }

  lemma MonthsLaterUnique(d: Date, n: int, r: Date, s: Date)
    requires MonthsLater(d, n, r) && MonthsLater(d, n, s)
    ensures r == s
  {
  }

  method AddMonthsClamped(t: Stamp, months: nat) returns (r: Stamp)
    requires Valid(t.date)
    ensures MonthsLater(t.date, months, r.date) && r.clock == t.clock
  {
    var d := t.date.day;
    var targetMonth, targetYear := t.date.month + months, t.date.year;
    while targetMonth > 12
      invariant targetMonth >= 1
      invariant MonthIndex(targetYear, targetMonth) == MonthIndex(t.date.year, t.date.month) + months
    {
      targetMonth, targetYear := targetMonth - 12, targetYear + 1;
    }
    var lastDay := DaysInMonth(targetYear, targetMonth);
    DaysInMonthIsLength(targetYear, targetMonth);
    if d > lastDay {
      d := lastDay;
    }
    r := Stamp(Date(targetYear, targetMonth, d), t.clock);
  }

  /** The date the clamped addition lands on. */
  function MonthsOn(d: Date, n: int): Date {
    var first := NormalMonth(d.year, d.month + n);
    Date(first.year, first.month, Min(d.day, MonthLength(first.year, first.month)))
  }

  lemma MonthsOnIsMonthsLater(d: Date, n: int)
    requires Valid(d)
    ensures MonthsLater(d, n, MonthsOn(d, n))
  {
  }

  /** A later start never gives an earlier end. */
  lemma MonthsOnMonotone(a: Date, b: Date, n: int)
    requires Valid(a) && Valid(b) && DayNumber(a) <= DayNumber(b)
    ensures DayNumber(MonthsOn(a, n)) <= DayNumber(MonthsOn(b, n))
  {
    OrderIsDayOrder(a, b);
    MonthsOnIsMonthsLater(a, n);
    MonthsOnIsMonthsLater(b, n);
    OrderIsDayOrder(MonthsOn(b, n), MonthsOn(a, n));
  }

  /** AddDate(1, 0, 0) does not clamp: 29 February runs over into 1 March. */
  function YearOn(d: Date): Date {
    if d.month == 2 && d.day == 29 && !Leap(d.year + 1) then Date(d.year + 1, 3, 1)
    else Date(d.year + 1, d.month, d.day)
  }

  // ----- Billing cycles -----

  function Expiry(from: Stamp, cycle: string): Option<Stamp> {
    if cycle == "weekly" then Some(Stamp(AddDays(from.date, 7), from.clock))
    else if cycle == "monthly" then Some(Stamp(MonthsOn(from.date, 1), from.clock))
    else if cycle == "quarterly" then Some(Stamp(MonthsOn(from.date, 3), from.clock))
    else if cycle == "yearly" then Some(Stamp(YearOn(from.date), from.clock))
    else if cycle == "forever" || cycle == "one_time" then None
    else Some(Stamp(MonthsOn(from.date, 1), from.clock))
  }

  method CalculateExpiry(from: Stamp, cycle: string) returns (r: Option<Stamp>)
    requires Valid(from.date)
    ensures r == Expiry(from, cycle)
  {
    match cycle {
      case "weekly" =>
        r := Some(Stamp(AddDays(from.date, 7), from.clock));
      case "quarterly" =>
        var t := AddMonthsClamped(from, 3);
        MonthsOnIsMonthsLater(from.date, 3);
        MonthsLaterUnique(from.date, 3, t.date, MonthsOn(from.date, 3));
        r := Some(t);
      case "yearly" =>
        r := Some(Stamp(YearOn(from.date), from.clock));
      case "forever" =>
        r := None;
      case "one_time" =>
        r := None;
      case _ =>
        var t := AddMonthsClamped(from, 1);
        MonthsOnIsMonthsLater(from.date, 1);
        MonthsLaterUnique(from.date, 1, t.date, MonthsOn(from.date, 1));
        r := Some(t);
    }
  }

  function TableBefore(m: int, leap: bool): int
    requires 1 <= m <= 12
  {
    BEFORE_MONTH[m - 1] + if leap && m > 2 then 1 else 0
  }

  function TableLength(m: int, leap: bool): int
    requires 1 <= m <= 12
  {
    BEFORE_MONTH[m] - BEFORE_MONTH[m - 1] + if leap && m == 2 then 1 else 0
  }

  lemma LengthInTable(y: int, m: int)
    requires 1 <= m <= 12
    ensures MonthLength(y, m) == TableLength(m, Leap(y))
    ensures DaysBeforeMonth(y, m) == TableBefore(m, Leap(y))
  {
    MonthTable(y, m);
  }

  /** Month n of the next or the same year is k months after month m. */
  function TableSpan(m: int, day: int, n: int, gap: int, leapNow: bool, leapThen: bool): int
    requires 1 <= m <= 12 && 1 <= n <= 12
  {
    gap + TableBefore(n, leapThen) + Min(day, TableLength(n, leapThen)) - TableBefore(m, leapNow) - day
  }

  lemma SpanIsTableSpan(d: Date, k: int, z: int, n: int)
    requires Valid(d) && NormalMonth(d.year, d.month + k) == Date(z, n, 1) && d.year <= z <= d.year + 1
    ensures DayNumber(MonthsOn(d, k)) - DayNumber(d)
         == TableSpan(d.month, d.day, n, if z == d.year then 0 else YearLength(d.year), Leap(d.year), Leap(z))
    ensures 1 <= d.day <= TableLength(d.month, Leap(d.year))
  {
    LengthInTable(d.year, d.month);
    LengthInTable(z, n);
    YearStep(d.year);
  }

  lemma MonthAdvance(d: Date)
    requires Valid(d)
    ensures 28 <= DayNumber(MonthsOn(d, 1)) - DayNumber(d) <= 31
  {
    if d.month == 12 {
      SpanIsTableSpan(d, 1, d.year + 1, 1);
    } else {
      SpanIsTableSpan(d, 1, d.year, d.month + 1);
    }
  }

  lemma QuarterAdvance(d: Date)
    requires Valid(d)
    ensures 89 <= DayNumber(MonthsOn(d, 3)) - DayNumber(d) <= 92
  {
    if d.month >= 10 {
      SpanIsTableSpan(d, 3, d.year + 1, d.month - 9);
    } else {
      SpanIsTableSpan(d, 3, d.year, d.month + 3);
    }
  }

  lemma YearAdvance(d: Date)
    requires Valid(d)
    ensures Valid(YearOn(d))
    ensures 365 <= DayNumber(YearOn(d)) - DayNumber(d) <= 366
  {
    YearStep(d.year);
    MonthTable(d.year, d.month);
    MonthTable(d.year + 1, YearOn(d).month);
    assert !(Leap(d.year) && Leap(d.year + 1));
  }

  /**
   * Where each billing cycle ends: months later on the same day or the month's last, a year later on the same day, where
   * 29 February runs over into 1 March.
   */
  lemma ExpiryDate(from: Stamp, cycle: string)
    requires Valid(from.date)
    ensures var r := Expiry(from, cycle);
            if cycle == "forever" || cycle == "one_time" then r == None
            else
              && r.Some? && r.value.clock == from.clock
              && if cycle == "weekly" then DayNumber(r.value.date) == DayNumber(from.date) + 7
                 else if cycle == "quarterly" then MonthsLater(from.date, 3, r.value.date)
                 else if cycle == "yearly" then
                   r.value.date == if from.date.month == 2 && from.date.day == 29 then Date(from.date.year + 1, 3, 1)
                                   else Date(from.date.year + 1, from.date.month, from.date.day)
                 else MonthsLater(from.date, 1, r.value.date)
  {
    AddDaysCounts(from.date, 7);
    MonthsOnIsMonthsLater(from.date, 1);
    MonthsOnIsMonthsLater(from.date, 3);
    assert !(Leap(from.date.year) && Leap(from.date.year + 1));
  }

  /** How far each billing cycle advances the day number. */
  lemma ExpiryAdvance(from: Stamp, cycle: string)
    requires Valid(from.date)
    ensures var r := Expiry(from, cycle);
            if cycle == "forever" || cycle == "one_time" then r == None
            else
              && r.Some? && Valid(r.value.date) && r.value.clock == from.clock
              && var days := DayNumber(r.value.date) - DayNumber(from.date);
                 if cycle == "weekly" then days == 7
                 else if cycle == "quarterly" then 89 <= days <= 92
                 else if cycle == "yearly" then 365 <= days <= 366
                 else 28 <= days <= 31
  {
    AddDaysCounts(from.date, 7);
    MonthsOnIsMonthsLater(from.date, 1);
    MonthsOnIsMonthsLater(from.date, 3);
    MonthAdvance(from.date);
    QuarterAdvance(from.date);
    YearAdvance(from.date);
  }

  /** Nanoseconds since 0001-01-01, for comparing points in time. */
  function Instant(t: Stamp): int {
    (DayNumber(t.date) - 1) * DAY + t.clock
  }

  /** Instants count from midnight of 1 January of year 1, a day being 86400 seconds. */
  lemma InstantScale(t: Stamp)
    ensures DayNumber(Date(1, 1, 1)) == 1
    ensures Instant(t) == (DayNumber(t.date) - 1) * 86_400_000_000_000 + t.clock
  {
    assert DaysBeforeYear(1) == 0 && DaysBeforeMonth(1, 1) == 0;
  }

  lemma InstantGap(a: Stamp, b: Stamp, days: int)
    requires DayNumber(b.date) == DayNumber(a.date) + days
    ensures Instant(b) == Instant(a) + days * DAY + (b.clock - a.clock)
  {
    var m, n := DayNumber(a.date), DayNumber(b.date);
    assert (n - 1) * DAY == (m - 1) * DAY + days * DAY;
  }
}
