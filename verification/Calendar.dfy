/** Instants of the UTC clock, the proleptic Gregorian calendar behind them, and the
    start of the daily, weekly and monthly budget windows. */
module Calendar {

  /** A clock reading: microseconds since 0001-01-01T00:00:00Z, a Monday. */
  type Instant = nat

  datatype Period = Daily | Weekly | Monthly

  const SECOND: nat := 1_000_000
  const MINUTE: nat := 60 * SECOND
  const DAY: nat := 86_400_000_000

  // ----- months, numbered from January of year 1 -----

  predicate IsLeap(year: nat) {
    year % 4 == 0 && (year % 100 != 0 || year % 400 == 0)
  }

  /** The number of days in month k, where k counts months from January of year 1. */
  function MonthLength(k: nat): (n: nat)
    ensures 28 <= n <= 31
  {
    var month := k % 12 + 1;
    if month == 2 then (if IsLeap(k / 12 + 1) then 29 else 28)
    else if month in {4, 6, 9, 11} then 30
    else 31
  }

  /** The number of days before month k. */
  function MonthOrdinal(k: nat): nat {
    if k == 0 then 0 else MonthOrdinal(k - 1) + MonthLength(k - 1)
  }

  lemma {:induction false} MonthOrdinalIncreases(j: nat, k: nat)
    requires j < k
    ensures MonthOrdinal(j) + MonthLength(j) <= MonthOrdinal(k)
    decreases k
  {
    var last := k - 1;
    assert MonthOrdinal(k) == MonthOrdinal(last) + MonthLength(last);
    if j < last {
      MonthOrdinalIncreases(j, last);
    }
  }

  // ----- the fields of a datetime -----

  datatype DateTime = DateTime(year: nat, month: nat, day: nat,
                               hour: nat, minute: nat, second: nat, microsecond: nat)

  predicate Valid(dt: DateTime) {
    && 1 <= dt.year <= 9999
    && 1 <= dt.month <= 12
    && 1 <= dt.day <= MonthLength(MonthIndex(dt))
    && dt.hour < 24 && dt.minute < 60 && dt.second < 60 && dt.microsecond < 1_000_000
  }

  function MonthIndex(dt: DateTime): nat
    requires 1 <= dt.year && 1 <= dt.month
  {
    12 * (dt.year - 1) + dt.month - 1
  }

  function DayOrdinal(dt: DateTime): nat
    requires Valid(dt)
  {
    MonthOrdinal(MonthIndex(dt)) + dt.day - 1
  }

  function TimeOfDay(dt: DateTime): (t: nat)
    requires Valid(dt)
    ensures t < DAY
  {
    ((dt.hour * 60 + dt.minute) * 60 + dt.second) * SECOND + dt.microsecond
  }

  function ToInstant(dt: DateTime): Instant
    requires Valid(dt)
  {
    DayOrdinal(dt) * DAY + TimeOfDay(dt)
  }

  /** Field-by-field order, as Python compares aware datetimes of one zone. */
  predicate Earlier(a: DateTime, b: DateTime) {
    || a.year < b.year
    || (a.year == b.year && (
          || a.month < b.month
          || (a.month == b.month && (
                || a.day < b.day
                || (a.day == b.day && (
                      || a.hour < b.hour
                      || (a.hour == b.hour && (
                            || a.minute < b.minute
                            || (a.minute == b.minute && (
                                  || a.second < b.second
                                  || (a.second == b.second && a.microsecond < b.microsecond)))))))))))
  }

  lemma EarlierDay(a: DateTime, b: DateTime)
    requires Valid(a) && Valid(b)
    requires a.year < b.year || (a.year == b.year && (a.month < b.month || (a.month == b.month && a.day < b.day)))
    ensures DayOrdinal(a) < DayOrdinal(b)
  {
    if MonthIndex(a) != MonthIndex(b) {
      assert MonthIndex(a) < MonthIndex(b);
      MonthOrdinalIncreases(MonthIndex(a), MonthIndex(b));
    }
  }

  lemma EarlierIsSooner(a: DateTime, b: DateTime)
    requires Valid(a) && Valid(b) && Earlier(a, b)
    ensures ToInstant(a) < ToInstant(b)
  {
    if (a.year, a.month, a.day) != (b.year, b.month, b.day) {
      EarlierDay(a, b);
    }
  }

  /** The field order of datetimes is the order of the instants they denote. */
  lemma FieldOrderIsTimeOrder(a: DateTime, b: DateTime)
    requires Valid(a) && Valid(b)
    ensures Earlier(a, b) <==> ToInstant(a) < ToInstant(b)
    ensures a == b <==> ToInstant(a) == ToInstant(b)
  {
    if Earlier(a, b) {
      EarlierIsSooner(a, b);
    } else if Earlier(b, a) {
      EarlierIsSooner(b, a);
    }
  }

  // ----- the calendar in closed form -----

  /** The leap days in the first n years. */
  function LeapDays(n: nat): int { n / 4 - n / 100 + n / 400 }

  /** The days of the first m months of a year that begins in March. */
  function DaysFromMarch(m: nat): nat
    requires m <= 10
  {
    [0, 31, 61, 92, 122, 153, 184, 214, 245, 275, 306][m]
  }

  lemma LeapDaysStep(n: nat)
    ensures LeapDays(n + 1) == LeapDays(n) + if IsLeap(n + 1) then 1 else 0
  {
    NextFourth(n);
    NextHundredth(n);
    NextFourHundredth(n);
    Multiples(n + 1);
  }

  lemma Multiples(n: nat)
    ensures n % 100 == 0 ==> n % 4 == 0
    ensures n % 400 == 0 ==> n % 100 == 0
  {
    if n % 100 == 0 {
      assert n == 4 * (25 * (n / 100));
    }
    if n % 400 == 0 {
      assert n == 100 * (4 * (n / 400));
    }
  }

  lemma NextFourth(n: nat)
    ensures (n + 1) / 4 == n / 4 + if (n + 1) % 4 == 0 then 1 else 0
  {
  }

  lemma NextHundredth(n: nat)
    ensures (n + 1) / 100 == n / 100 + if (n + 1) % 100 == 0 then 1 else 0
  {
  }

  lemma NextFourHundredth(n: nat)
    ensures (n + 1) / 400 == n / 400 + if (n + 1) % 400 == 0 then 1 else 0
  {
  }

  lemma DaysFromMarchStep(m: nat)
    requires m <= 9
    ensures DaysFromMarch(m + 1) == DaysFromMarch(m) + if m in {1, 3, 6, 8} then 30 else 31
  {
    assert m in {0, 1, 2, 3, 4, 5, 6, 7, 8, 9};
  }

  /** One more month of year n + 1. */
  lemma OneMoreMonth(n: nat, m: nat)
    requires m < 12
    ensures MonthOrdinal(12 * n + m + 1) == MonthOrdinal(12 * n + m)
                                            + if m == 1 then (if IsLeap(n + 1) then 29 else 28) else if m in {3, 5, 8, 10} then 30 else 31
  {
    var k := 12 * n + m;
    assert k % 12 == m && k / 12 == n;
  }

  lemma {:induction false} SinceMarch(n: nat, m: nat)
    requires m <= 10
    ensures MonthOrdinal(12 * n + 2 + m) == MonthOrdinal(12 * n + 2) + DaysFromMarch(m)
  {
    if m > 0 {
      SinceMarch(n, m - 1);
      DaysFromMarchStep(m - 1);
      OneMoreMonth(n, m + 1);
      assert 12 * n + (m + 1) == 12 * n + 2 + (m - 1) && 12 * n + (m + 1) + 1 == 12 * n + 2 + m;
    }
  }

  lemma BeforeMarch(n: nat)
    ensures MonthOrdinal(12 * n + 1) == MonthOrdinal(12 * n) + 31
    ensures MonthOrdinal(12 * n + 2) == MonthOrdinal(12 * n) + if IsLeap(n + 1) then 60 else 59
  {
    var k := 12 * n;
    OneMoreMonth(n, 0);
    OneMoreMonth(n, 1);
    assert k + 0 + 1 == k + 1 && k + 1 + 1 == k + 2;
  }

  lemma OneMoreYear(n: nat)
    ensures MonthOrdinal(12 * n + 12) == MonthOrdinal(12 * n) + if IsLeap(n + 1) then 366 else 365
  {
    BeforeMarch(n);
    SinceMarch(n, 10);
  }

  lemma OneMoreSum(n: nat, before: int, after: int)
    requires before == 365 * n + LeapDays(n) && after == before + if IsLeap(n + 1) then 366 else 365
    ensures after == 365 * (n + 1) + LeapDays(n + 1)
  {
    LeapDaysStep(n);
  }

  /** The days of the first n years: 365 for each, and the leap days. */
  lemma {:induction false} DaysInYears(n: nat)
    ensures MonthOrdinal(12 * n) == 365 * n + LeapDays(n)
  {
    if n > 0 {
      var m := n - 1;
      DaysInYears(m);
      OneMoreYear(m);
      OneMoreSum(m, MonthOrdinal(12 * m), MonthOrdinal(12 * m + 12));
      assert 12 * m + 12 == 12 * n;
    }
  }

  /** The day number in closed form, with years that begin in March. */
  lemma DayNumber(dt: DateTime)
    requires Valid(dt)
    ensures DayOrdinal(dt) == if dt.month <= 2 then 365 * (dt.year - 1) + LeapDays(dt.year - 1) + 31 * (dt.month - 1) + dt.day - 1
                              else 365 * dt.year + LeapDays(dt.year) + DaysFromMarch(dt.month - 3) + dt.day - 307
  {
    var n := dt.year - 1;
    DaysInYears(n);
    BeforeMarch(n);
    if dt.month > 2 {
      SinceMarch(n, dt.month - 3);
      assert MonthIndex(dt) == 12 * n + 2 + (dt.month - 3);
      OneMoreSum(n, MonthOrdinal(12 * n), MonthOrdinal(12 * n) + if IsLeap(n + 1) then 366 else 365);
    }
  }

  /** The moment in microseconds. */
  lemma MomentNumber(dt: DateTime)
    requires Valid(dt)
    ensures ToInstant(dt) == DayOrdinal(dt) * 86_400_000_000 + dt.hour * 3_600_000_000 + dt.minute * 60_000_000
                             + dt.second * 1_000_000 + dt.microsecond
  {
  }

  /** Known days: the Unix epoch was a Thursday and 2024 began on a Monday; 2000 and 2024 had a
      29th of February, 1900 and 2023 had none. */
  lemma KnownDays(dt: DateTime)
    ensures (dt.year, dt.month, dt.day) == (1970, 1, 1) && Valid(dt) ==> DayOrdinal(dt) == 719_162 && Weekday(dt) == 3
    ensures (dt.year, dt.month, dt.day) == (2024, 1, 1) && Valid(dt) ==> Weekday(dt) == 0
    ensures (dt.month, dt.day) == (2, 29) && dt.year in {2000, 2024} && TimeFits(dt) ==> Valid(dt)
    ensures (dt.month, dt.day) == (2, 29) && dt.year in {1900, 2023} ==> !Valid(dt)
  {
    if Valid(dt) {
      DayNumber(dt);
    }
  }

  predicate TimeFits(dt: DateTime) { dt.hour < 24 && dt.minute < 60 && dt.second < 60 && dt.microsecond < 1_000_000 }

  // ----- period_start on datetime fields -----

  function Midnight(dt: DateTime): (r: DateTime)
    requires Valid(dt)
    ensures Valid(r) && ToInstant(r) == DayOrdinal(dt) * DAY
  {
    dt.(hour := 0, minute := 0, second := 0, microsecond := 0)
  }

  /** Monday is 0; the first day of the calendar is a Monday. */
  function Weekday(dt: DateTime): nat
    requires Valid(dt)
  {
    DayOrdinal(dt) % 7
  }

  function DayBefore(dt: DateTime): (r: DateTime)
    requires Valid(dt) && DayOrdinal(dt) > 0
    ensures Valid(r) && DayOrdinal(r) == DayOrdinal(dt) - 1 && TimeOfDay(r) == TimeOfDay(dt)
  {
    if dt.day > 1 then dt.(day := dt.day - 1)
    else
      var k := MonthIndex(dt);
      assert k > 0;
      assert (k - 1) / 12 + 1 == if dt.month == 1 then dt.year - 1 else dt.year;
      if dt.month == 1 then dt.(year := dt.year - 1, month := 12, day := 31)
      else dt.(month := dt.month - 1, day := MonthLength(k - 1))
  }

  function MinusDays(dt: DateTime, days: nat): (r: DateTime)
    requires Valid(dt) && days <= DayOrdinal(dt)
    ensures Valid(r) && DayOrdinal(r) == DayOrdinal(dt) - days && TimeOfDay(r) == TimeOfDay(dt)
    decreases days
  {
    if days == 0 then dt else MinusDays(DayBefore(dt), days - 1)
  }

  /** The start of the budget window that contains dt, computed on the fields. */
  function PeriodStartFields(dt: DateTime, period: Period): (r: DateTime)
    requires Valid(dt)
    ensures Valid(r)
  {
    var day := Midnight(dt);
    match period
    case Daily => day
    case Weekly => MinusDays(day, Weekday(day))
    case Monthly => day.(day := 1)
  }

  // ----- the same start on instants -----

  /** The first day of the month that contains day d, searching from month k on. */
  function MonthStartFrom(k: nat, d: nat): (s: nat)
    requires MonthOrdinal(k) <= d
    ensures MonthOrdinal(k) <= s <= d
    decreases d - MonthOrdinal(k)
  {
    if d < MonthOrdinal(k + 1) then MonthOrdinal(k) else MonthStartFrom(k + 1, d)
  }

  function MonthStart(d: nat): nat { MonthStartFrom(0, d) }

  function PeriodStart(t: Instant, period: Period): Instant {
    match period
    case Daily => t / DAY * DAY
    case Weekly => t / (7 * DAY) * (7 * DAY)
    case Monthly => MonthStart(t / DAY) * DAY
  }

  lemma {:induction false} MonthStartFound(k: nat, m: nat, d: nat)
    requires k <= m && MonthOrdinal(k) <= d && MonthOrdinal(m) <= d < MonthOrdinal(m + 1)
    ensures MonthStartFrom(k, d) == MonthOrdinal(m)
    decreases m - k
  {
    if k < m {
      MonthOrdinalIncreases(k, m);
      var next := k + 1;
      assert MonthOrdinal(next) <= d;
      MonthStartFound(next, m, d);
      assert MonthStartFrom(k, d) == MonthStartFrom(next, d);
    }
  }

  /** Every day lies in exactly one month. */
  lemma {:induction false} MonthOf(k: nat, d: nat) returns (m: nat)
    requires MonthOrdinal(k) <= d
    ensures k <= m && MonthOrdinal(m) <= d < MonthOrdinal(m + 1)
    ensures MonthStartFrom(k, d) == MonthOrdinal(m)
    decreases d - MonthOrdinal(k)
  {
    if d < MonthOrdinal(k + 1) {
      m := k;
    } else {
      m := MonthOf(k + 1, d);
    }
  }

  lemma MonthStartWindow(d: nat, e: nat)
    requires MonthStart(d) <= e <= d
    ensures MonthStart(e) == MonthStart(d)
  {
    var m := MonthOf(0, d);
    MonthStartFound(0, m, e);
  }

  lemma MonthStartMonotone(d: nat, e: nat)
    requires d <= e
    ensures MonthStart(d) <= MonthStart(e)
  {
    if MonthStart(e) <= d {
      MonthStartWindow(e, d);
    }
  }

  lemma WeeklyIsMondayMidnight(t: Instant)
    ensures t / (7 * DAY) * (7 * DAY) == (t / DAY - (t / DAY) % 7) * DAY
  {
    var d := t / DAY;
    var w := d / 7;
    assert t == 7 * DAY * w + (d % 7) * DAY + t % DAY;
    assert (d % 7) * DAY + t % DAY < 7 * DAY;
  }

  lemma InstantDay(dt: DateTime)
    requires Valid(dt)
    ensures ToInstant(dt) / DAY == DayOrdinal(dt)
  {
    var d, rest := DayOrdinal(dt), TimeOfDay(dt);
    assert 0 <= d * DAY + rest - d * DAY < DAY;
  }

  /** The window start on the fields is a midnight; which one is fixed by its day. */
  lemma PeriodStartDay(dt: DateTime, period: Period)
    requires Valid(dt)
    ensures TimeOfDay(PeriodStartFields(dt, period)) == 0
    ensures DayOrdinal(PeriodStartFields(dt, period)) ==
              match period
              case Daily => DayOrdinal(dt)
              case Weekly => DayOrdinal(dt) - DayOrdinal(dt) % 7
              case Monthly => MonthOrdinal(MonthIndex(dt))
  {
    var day := Midnight(dt);
    assert DayOrdinal(day) == DayOrdinal(dt) && TimeOfDay(day) == 0;
    match period
    case Daily =>
    case Weekly => assert PeriodStartFields(dt, period) == MinusDays(day, Weekday(day));
    case Monthly => assert MonthIndex(day.(day := 1)) == MonthIndex(dt);
  }

  lemma MidnightFields(dt: DateTime)
    requires Valid(dt) && TimeOfDay(dt) == 0
    ensures dt.hour == dt.minute == dt.second == dt.microsecond == 0
  {
  }

  /** A window starts at midnight: of the same day, of the last Monday, or of the first of the month. */
  lemma WindowStarts(dt: DateTime, period: Period)
    requires Valid(dt)
    ensures var start := PeriodStartFields(dt, period);
            && start.hour == start.minute == start.second == start.microsecond == 0
            && (period == Daily ==> (start.year, start.month, start.day) == (dt.year, dt.month, dt.day))
            && (period == Weekly ==> Weekday(start) == 0 && DayOrdinal(dt) - 6 <= DayOrdinal(start) <= DayOrdinal(dt))
            && (period == Monthly ==> (start.year, start.month, start.day) == (dt.year, dt.month, 1))
  {
    PeriodStartDay(dt, period);
    MidnightFields(PeriodStartFields(dt, period));
    if period == Weekly {
      LastMonday(DayOrdinal(dt));
    }
  }

  lemma LastMonday(d: nat)
    ensures (d - d % 7) % 7 == 0 && d - 6 <= d - d % 7 <= d
  {
  }

  /** The field computation and the instant computation denote the same moment. */
  lemma PeriodStartAgrees(dt: DateTime, period: Period)
    requires Valid(dt)
    ensures ToInstant(PeriodStartFields(dt, period)) == PeriodStart(ToInstant(dt), period)
  {
    PeriodStartDay(dt, period);
    InstantDay(dt);
    match period
    case Daily =>
    case Weekly => WeeklyIsMondayMidnight(ToInstant(dt));
    case Monthly => MonthStartFound(0, MonthIndex(dt), DayOrdinal(dt));
  }

  lemma PeriodStartNotAfter(t: Instant, period: Period)
    ensures PeriodStart(t, period) <= t
  {
    if period.Monthly? {
      assert MonthStart(t / DAY) * DAY <= (t / DAY) * DAY;
    }
  }

  lemma PeriodStartMonotone(t: Instant, u: Instant, period: Period)
    requires t <= u
    ensures PeriodStart(t, period) <= PeriodStart(u, period)
  {
    match period
    case Daily =>
      assert t / DAY <= u / DAY;
    case Weekly =>
      assert t / (7 * DAY) <= u / (7 * DAY);
    case Monthly =>
      assert t / DAY <= u / DAY;
      MonthStartMonotone(t / DAY, u / DAY);
      assert MonthStart(t / DAY) * DAY <= MonthStart(u / DAY) * DAY;
  }

  /** Every moment from the start of a window up to t has the same window start as t. */
  lemma PeriodStartConstantOnWindow(t: Instant, u: Instant, period: Period)
    requires PeriodStart(t, period) <= u <= t
    ensures PeriodStart(u, period) == PeriodStart(t, period)
  {
    match period
    case Daily =>
      assert u / DAY == t / DAY;
    case Weekly =>
      assert u / (7 * DAY) == t / (7 * DAY);
    case Monthly =>
      assert MonthStart(t / DAY) <= u / DAY <= t / DAY;
      MonthStartWindow(t / DAY, u / DAY);
  }

  /** A window start is its own window start, and no window starts inside a day. */
  lemma PeriodStartIdempotent(t: Instant, period: Period)
    ensures PeriodStart(PeriodStart(t, period), period) == PeriodStart(t, period)
    ensures PeriodStart(t, period) <= PeriodStart(t, Daily) <= t
  {
    PeriodStartNotAfter(t, period);
    PeriodStartConstantOnWindow(t, PeriodStart(t, period), period);
    if period.Weekly? {
      WeeklyIsMondayMidnight(t);
    } else if period.Monthly? {
      assert MonthStart(t / DAY) * DAY <= (t / DAY) * DAY;
    }
  }
}
