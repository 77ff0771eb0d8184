/**
 * The proleptic Gregorian calendar on day numbers.
 *
 * A date is a count of days since 1970-01-01, the day that `time_t` 0 falls on
 * (the C core keeps dates as `time_t` at day granularity; the Python core uses
 * `datetime.date`, whose earliest value 0001-01-01 is `MinDate`).
 *
 * Months are numbered consecutively (`MonthIndex`), so that "n months later"
 * is an addition; every day number is described by the first day of its month
 * (`MonthStart`) plus its day of the month.
 */
module Calendar {
  type Date = int

  /** Days from 0001-01-01 to 1970-01-01. */
  const EpochOffset: int := 719162
  /** 0001-01-01, Python's `date.min`. */
  const MinDate: Date := -719162
  /** The C core's "no date" value: a stop date or reconciliation date of 0. */
  const NoDate: Date := 0

  predicate ValidDate(d: Date) { d >= MinDate }

  predicate IsLeap(y: int) { y % 4 == 0 && (y % 100 != 0 || y % 400 == 0) }

  function DaysInYear(y: int): int { if IsLeap(y) then 366 else 365 }

  function DaysInMonth(y: int, m: int): (r: int)
    requires 1 <= m <= 12
    ensures 28 <= r <= 31
  {
    if m == 2 then (if IsLeap(y) then 29 else 28)
    else if m == 4 || m == 6 || m == 9 || m == 11 then 30
    else 31
  }

  /** Days of year `y` that come before the first of month `m`. */
  function DaysBeforeMonth(y: int, m: int): int
    requires 1 <= m <= 12
  {
    if m == 1 then 0
    else if m == 2 then 31
    else (153 * (m - 3) + 2) / 5 + 59 + (if IsLeap(y) then 1 else 0)
  }

  lemma {:induction false} DaysBeforeMonthStep(y: int, m: int)
    requires 1 <= m < 12
    ensures DaysBeforeMonth(y, m + 1) == DaysBeforeMonth(y, m) + DaysInMonth(y, m)
  {
  }

  lemma {:induction false} DaysBeforeMonthEnd(y: int)
    ensures DaysBeforeMonth(y, 12) + DaysInMonth(y, 12) == DaysInYear(y)
  {
  }

  /** Leap days in years 1 to `p`. */
  function LeapDays(p: int): int { p / 4 - p / 100 + p / 400 }

  /** Days from 0001-01-01 to the first of January of year `y`. */
  function DaysBeforeYear(y: int): (r: int)
    requires y >= 1
    ensures r >= 0
  {
    365 * (y - 1) + LeapDays(y - 1)
  }

  lemma {:induction false} DivStep4(y: int)
    ensures y / 4 == (y - 1) / 4 + (if y % 4 == 0 then 1 else 0)
  {
  }

  lemma {:induction false} DivStep100(y: int)
    ensures y / 100 == (y - 1) / 100 + (if y % 100 == 0 then 1 else 0)
  {
  }

  lemma {:induction false} DivStep400(y: int)
    ensures y / 400 == (y - 1) / 400 + (if y % 400 == 0 then 1 else 0)
  {
  }

  lemma {:induction false} Multiples(y: int)
    ensures y % 400 == 0 ==> y % 100 == 0
    ensures y % 100 == 0 ==> y % 4 == 0
  {
  }

  /** Year `y` adds a leap day exactly when it is a leap year. */
  lemma {:induction false} LeapDaysStep(y: int)
    ensures LeapDays(y) == LeapDays(y - 1) + (if IsLeap(y) then 1 else 0)
  {
    DivStep4(y);
    DivStep100(y);
    DivStep400(y);
    Multiples(y);
  }

  lemma {:induction false} DaysBeforeYearStep(y: int)
    requires y >= 1
    ensures DaysBeforeYear(y + 1) == DaysBeforeYear(y) + DaysInYear(y)
  {
    LeapDaysStep(y);
  }

  lemma {:induction false} ModShift4(y: int) ensures (y + 400) % 4 == y % 4 { }
  lemma {:induction false} ModShift100(y: int) ensures (y + 400) % 100 == y % 100 { }
  lemma {:induction false} ModShift400(y: int) ensures (y + 400) % 400 == y % 400 { }

  lemma {:induction false} LeapPeriod(y: int)
    ensures IsLeap(y + 400) == IsLeap(y)
  {
    ModShift4(y);
    ModShift100(y);
    ModShift400(y);
  }

  /** The Gregorian calendar repeats every 400 years, which is 146097 days. */
  lemma {:induction false} DaysBeforeYearPeriod(y: int)
    requires y >= 1
    ensures DaysBeforeYear(y + 400) == DaysBeforeYear(y) + 146097
  {
    var p := y - 1;
    assert (p + 400) / 4 == p / 4 + 100;
    assert (p + 400) / 100 == p / 100 + 4;
    assert (p + 400) / 400 == p / 400 + 1;
  }

  // ---------------------------------------------------------------------------
  // Months

  function YearOf(mi: int): int { mi / 12 }
  function MonthOf(mi: int): (m: int) ensures 1 <= m <= 12 { mi % 12 + 1 }

  function DaysInMonthAt(mi: int): (r: int)
    ensures 28 <= r <= 31
  {
    DaysInMonth(YearOf(mi), MonthOf(mi))
  }

  /**
   * The first day of month number `mi` (month `mi % 12 + 1` of year `mi / 12`):
   * month 12 is January of year 1, and every month starts where the previous one ends.
   */
  function MonthStart(mi: int): (r: Date)
    requires mi >= 12
    ensures ValidDate(r)
    decreases mi
  {
    if mi == 12 then MinDate else MonthStart(mi - 1) + DaysInMonthAt(mi - 1)
  }

  /** Day `day` (1-based) of month number `mi`. */
  function DayOfMonth(mi: int, day: int): Date
    requires mi >= 12
  {
    MonthStart(mi) + day - 1
  }

  /** Consecutive months: the next month starts where this one ends. */
  lemma {:induction false} MonthStartStep(mi: int)
    requires mi >= 12
    ensures MonthStart(mi + 1) == MonthStart(mi) + DaysInMonthAt(mi)
  {
  }

  /** The first day of a month in closed form: the days of the years and months before it. */
  function MonthStartFormula(mi: int): Date
    requires mi >= 12
  {
    DaysBeforeYear(YearOf(mi)) + DaysBeforeMonth(YearOf(mi), MonthOf(mi)) - EpochOffset
  }

  lemma {:induction false} MonthStartFormulaStep(mi: int)
    requires mi >= 12
    ensures MonthStartFormula(mi + 1) == MonthStartFormula(mi) + DaysInMonthAt(mi)
  {
    var y, m := YearOf(mi), MonthOf(mi);
    if m < 12 {
      assert YearOf(mi + 1) == y && MonthOf(mi + 1) == m + 1;
      DaysBeforeMonthStep(y, m);
    } else {
      assert YearOf(mi + 1) == y + 1 && MonthOf(mi + 1) == 1;
      DaysBeforeYearStep(y);
      DaysBeforeMonthEnd(y);
    }
  }

  lemma {:induction false} MonthStartClosed(mi: int)
    requires mi >= 12
    ensures MonthStart(mi) == MonthStartFormula(mi)
    decreases mi
  {
    if mi > 12 {
      MonthStartClosed(mi - 1);
      MonthStartFormulaStep(mi - 1);
    }
  }

  /** Later months start later: at least 28 days per month. */
  lemma {:induction false} MonthStartGrowth(a: int, b: int)
    requires 12 <= a <= b
    ensures MonthStart(a) + 28 * (b - a) <= MonthStart(b)
    decreases b - a
  {
    if a < b {
      MonthStartStep(a);
      MonthStartGrowth(a + 1, b);
    }
  }

  /** Month `a` ends no later than any later month `b` begins. */
  lemma {:induction false} MonthStartLess(a: int, b: int)
    requires 12 <= a < b
    ensures MonthStart(a + 1) <= MonthStart(b)
  {
    MonthStartGrowth(a + 1, b);
  }

  /** A day lies in at most one month. */
  lemma {:induction false} SameMonth(x: int, a: int, b: int)
    requires a >= 12 && b >= 12
    requires MonthStart(a) <= x < MonthStart(a + 1)
    requires MonthStart(b) <= x < MonthStart(b + 1)
    ensures a == b
  {
    if a < b {
      MonthStartLess(a, b);
      assert false;
    } else if b < a {
      MonthStartLess(b, a);
      assert false;
    }
  }

  lemma {:induction false} MonthFormulaPeriod(mi: int)
    requires mi >= 12
    ensures MonthStartFormula(mi + 4800) == MonthStartFormula(mi) + 146097
    ensures DaysInMonthAt(mi + 4800) == DaysInMonthAt(mi)
  {
    var y := YearOf(mi);
    assert YearOf(mi + 4800) == y + 400 && MonthOf(mi + 4800) == MonthOf(mi);
    LeapPeriod(y);
    DaysBeforeYearPeriod(y);
  }

  lemma {:induction false} MonthStartPeriod(mi: int)
    requires mi >= 12
    ensures MonthStart(mi + 4800) == MonthStart(mi) + 146097
    ensures DaysInMonthAt(mi + 4800) == DaysInMonthAt(mi)
  {
    MonthFormulaPeriod(mi);
    MonthStartClosed(mi);
    MonthStartClosed(mi + 4800);
  }

  /** Every 4800 months (400 years) the month starts move by 146097 days and the month lengths repeat. */
  lemma {:induction false} MonthStartPeriods(mi: int, k: nat)
    requires mi >= 12
    ensures MonthStart(mi + 4800 * k) == MonthStart(mi) + 146097 * k
    ensures DaysInMonthAt(mi + 4800 * k) == DaysInMonthAt(mi)
  {
    if k > 0 {
      var m' := mi + 4800 * (k - 1);
      assert m' + 4800 == mi + 4800 * k;
      MonthStartPeriods(mi, k - 1);
      MonthStartPeriod(m');
    }
  }

  // ---------------------------------------------------------------------------
  // Civil dates

  datatype Civil = Civil(year: int, month: int, day: int)

  predicate ValidCivil(c: Civil) {
    c.year >= 1 && 1 <= c.month <= 12 && 1 <= c.day <= DaysInMonth(c.year, c.month)
  }

  /** Position of a month counted from January of year 0. */
  function MonthIndex(c: Civil): int { c.year * 12 + c.month - 1 }

  lemma {:induction false} MonthIndexParts(c: Civil)
    requires 1 <= c.month <= 12
    ensures YearOf(MonthIndex(c)) == c.year && MonthOf(MonthIndex(c)) == c.month
  {
  }

  /** The day number of a civil date: the first day of its month plus its day of the month. */
  function ToDate(c: Civil): Date
    requires ValidCivil(c)
  {
    MonthIndexParts(c);
    DayOfMonth(MonthIndex(c), c.day)
  }

  /** The month that contains day `d`, searched from month `mi` on. */
  function MonthFrom(d: Date, mi: int): (r: int)
    requires mi >= 12 && MonthStart(mi) <= d
    ensures r >= mi && MonthStart(r) <= d < MonthStart(r + 1)
    decreases d - MonthStart(mi)
  {
    if d < MonthStart(mi + 1) then mi else MonthFrom(d, mi + 1)
  }

  /** The month number a day falls in. */
  function DateMonth(d: Date): (r: int)
    requires ValidDate(d)
    ensures r >= 12 && MonthStart(r) <= d < MonthStart(r + 1)
  {
    MonthFrom(d, 12)
  }

  /** The day of the month of a day number, 1 for the first day of its month. */
  function DateDay(d: Date): (r: int)
    requires ValidDate(d)
    ensures 1 <= r <= DaysInMonthAt(DateMonth(d))
  {
    MonthStartStep(DateMonth(d));
    d - MonthStart(DateMonth(d)) + 1
  }

  /** The civil date of a day number (what `localtime` gives for the start of that day). */
  function FromDate(d: Date): (r: Civil)
    requires ValidDate(d)
    ensures ValidCivil(r) && MonthIndex(r) == DateMonth(d) && r.day == DateDay(d)
  {
    Civil(YearOf(DateMonth(d)), MonthOf(DateMonth(d)), DateDay(d))
  }

  /** A valid civil date lies inside its own month. */
  lemma {:induction false} InMonth(c: Civil)
    requires ValidCivil(c)
    ensures MonthIndex(c) >= 12
    ensures DaysInMonthAt(MonthIndex(c)) == DaysInMonth(c.year, c.month)
    ensures MonthStart(MonthIndex(c)) <= ToDate(c) < MonthStart(MonthIndex(c) + 1)
  {
    MonthIndexParts(c);
    MonthStartStep(MonthIndex(c));
  }

  /** A day between the first days of month `mi` and of the next month falls in month `mi`. */
  lemma {:induction false} DateMonthOf(x: Date, mi: int)
    requires mi >= 12 && MonthStart(mi) <= x < MonthStart(mi + 1)
    ensures ValidDate(x)
    ensures DateMonth(x) == mi
    ensures DateDay(x) == x - MonthStart(mi) + 1
  {
    SameMonth(x, DateMonth(x), mi);
  }

  /** Reading back day `day` of month `mi` gives that month and day. */
  lemma {:induction false} DayOfMonthDate(mi: int, day: int)
    requires mi >= 12 && 1 <= day <= DaysInMonthAt(mi)
    ensures ValidDate(DayOfMonth(mi, day))
    ensures DateMonth(DayOfMonth(mi, day)) == mi
    ensures DateDay(DayOfMonth(mi, day)) == day
  {
    MonthStartStep(mi);
    DateMonthOf(DayOfMonth(mi, day), mi);
  }

  /** Converting a civil date to a day number and back gives the same civil date. */
  lemma {:induction false} FromToDate(c: Civil)
    requires ValidCivil(c)
    ensures ValidDate(ToDate(c)) && FromDate(ToDate(c)) == c
  {
    InMonth(c);
    DateMonthOf(ToDate(c), MonthIndex(c));
    MonthIndexParts(c);
  }

  /** Different civil dates have different day numbers. */
  lemma {:induction false} ToDateInjective(c1: Civil, c2: Civil)
    requires ValidCivil(c1) && ValidCivil(c2) && ToDate(c1) == ToDate(c2)
    ensures c1 == c2
  {
    FromToDate(c1);
    FromToDate(c2);
  }

  /** Converting a day number to a civil date and back gives the same day number. */
  lemma {:induction false} ToFromDate(d: Date)
    requires ValidDate(d)
    ensures ToDate(FromDate(d)) == d
  {
    MonthIndexParts(FromDate(d));
  }

  // ---------------------------------------------------------------------------
  // Weekdays

  /** Day of the week, Monday = 0 .. Sunday = 6 (1970-01-01 was a Thursday). */
  function DayOfWeek(d: Date): int { (d + 3) % 7 }

  lemma {:induction false} WeekdayAlign(a: int, w: int)
    requires 0 <= w < 7
    ensures DayOfWeek(a + (w - DayOfWeek(a)) % 7) == w
  {
  }

  lemma {:induction false} WeekdayBack(a: int, w: int)
    requires 0 <= w < 7
    ensures DayOfWeek(a - (DayOfWeek(a) - w) % 7) == w
  {
  }

  lemma {:induction false} WeekdayWeeks(a: int, k: int)
    ensures DayOfWeek(a + 7 * k) == DayOfWeek(a)
  {
  }

  /** Two days less than a week apart with the same weekday are the same day. */
  lemma {:induction false} WeekdaySame(a: int, b: int)
    requires a <= b < a + 7 && DayOfWeek(a) == DayOfWeek(b)
    ensures a == b
  {
  }

  /** 146097 days are a whole number of weeks. */
  lemma {:induction false} WeekdayPeriod(d: Date, k: nat)
    ensures DayOfWeek(d + 146097 * k) == DayOfWeek(d)
  {
    WeekdayWeeks(d, 20871 * k);
  }
}
