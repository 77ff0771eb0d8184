/**
 * Repeat types and the calendar increment of `ccore/recurrence.h`:
 * `inc_date`, `inc_date_skip` and `repeat_type_name`.
 *
 * Only the documented contract of `inc_date` is given by the C header; the
 * functions below implement that contract on day numbers.
 */
module Recurrence {
  import opened Wrappers
  import opened Calendar

  datatype RepeatType = Daily | Weekly | Monthly | Yearly | Weekday | WeekdayLast

  /** The C enum value of a repeat type. */
  function RepeatTypeCode(t: RepeatType): int
  {
    match t
    case Daily => 1
    case Weekly => 2
    case Monthly => 3
    case Yearly => 4
    case Weekday => 5
    case WeekdayLast => 6
  }

  function RepeatTypeFromCode(i: int): Option<RepeatType>
  {
    if i == 1 then Some(Daily) else if i == 2 then Some(Weekly)
    else if i == 3 then Some(Monthly) else if i == 4 then Some(Yearly)
    else if i == 5 then Some(Weekday) else if i == 6 then Some(WeekdayLast)
    else None
  }

  /** The enum has exactly the six values 1..6, one per repeat type. */
  lemma {:induction false} RepeatTypeCodes(t: RepeatType, i: int)
    ensures 1 <= RepeatTypeCode(t) <= 6
    ensures RepeatTypeFromCode(RepeatTypeCode(t)) == Some(t)
    ensures RepeatTypeFromCode(i).Some? <==> 1 <= i <= 6
    ensures RepeatTypeFromCode(i).Some? ==> RepeatTypeCode(RepeatTypeFromCode(i).value) == i
  {
  }

  /** The string form of a repeat type: it names that type and no other. */
  function RepeatTypeName(t: RepeatType): (r: string)
    ensures RepeatTypeFromName(r) == Some(t)
  {
    match t
    case Daily => "daily"
    case Weekly => "weekly"
    case Monthly => "monthly"
    case Yearly => "yearly"
    case Weekday => "weekday"
    case WeekdayLast => "weekday_last"
  }

  function RepeatTypeFromName(s: string): Option<RepeatType>
  {
    if s == "daily" then Some(Daily) else if s == "weekly" then Some(Weekly)
    else if s == "monthly" then Some(Monthly) else if s == "yearly" then Some(Yearly)
    else if s == "weekday" then Some(Weekday) else if s == "weekday_last" then Some(WeekdayLast)
    else None
  }

  /** Names identify repeat types: reading back a name gives the type it names. */
  lemma {:induction false} RepeatTypeNames(t: RepeatType, s: string)
    ensures RepeatTypeFromName(RepeatTypeName(t)) == Some(t)
    ensures RepeatTypeFromName(s).Some? ==> RepeatTypeName(RepeatTypeFromName(s).value) == s
  {
  }

  function Min(a: int, b: int): int { if a <= b then a else b }

  /** The week of the month a day of the month falls in, 0 for days 1..7. */
  function WeekOfMonth(day: int): int { (day - 1) / 7 }

  /** The month `count` months (or, yearly, `12 * count` months) after that of `date`. */
  function TargetMonth(date: Date, t: RepeatType, count: int): int
    requires ValidDate(date)
  {
    DateMonth(date) + (if t == Yearly then 12 * count else count)
  }

  /**
   * Day `day` of `date` moved into month `mi`, clamped to the length of that
   * month: the last day of the month when `day` does not exist there.
   */
  function ClampedDayIn(date: Date, mi: int): (r: Date)
    requires ValidDate(date) && mi >= 12
    ensures ValidDate(r)
  {
    DayOfMonth(mi, Min(DateDay(date), DaysInMonthAt(mi)))
  }

  /**
   * The day of the month with weekday `dw` in week `WeekOfMonth(day)` of a
   * month whose first day has weekday `dwFirst`.
   */
  function NthDay(dw: int, dwFirst: int, day: int): (r: int)
    requires day >= 1
    ensures r >= 1
  {
    1 + (dw - dwFirst) % 7 + 7 * WeekOfMonth(day)
  }

  /** The day of month `mi` with the weekday of `date`, in the same week of the month as `date`. */
  function NthWeekdayIn(date: Date, mi: int): (r: Option<Date>)
    requires ValidDate(date) && mi >= 12
    ensures r.Some? ==> ValidDate(r.value)
  {
    var day := NthDay(DayOfWeek(date), DayOfWeek(MonthStart(mi)), DateDay(date));
    if day > DaysInMonthAt(mi) then None else Some(DayOfMonth(mi, day))
  }

  /** The last day of month `mi` that has the weekday of `date`. */
  function LastWeekdayIn(date: Date, mi: int): (r: Date)
    requires ValidDate(date) && mi >= 12
    ensures ValidDate(r)
  {
    var last := DayOfMonth(mi, DaysInMonthAt(mi));
    last - (DayOfWeek(last) - DayOfWeek(date)) % 7
  }

  /**
   * `inc_date`: `date` moved by `count` units of `t`; `None` stands for the
   * C function's -1. Results before 0001-01-01 are outside the model and are
   * reported as `None` as well.
   */
  function IncDate(date: Date, t: RepeatType, count: int): (r: Option<Date>)
    requires ValidDate(date)
    ensures r.Some? ==> ValidDate(r.value)
  {
    match t
    case Daily => if ValidDate(date + count) then Some(date + count) else None
    case Weekly => if ValidDate(date + 7 * count) then Some(date + 7 * count) else None
    case _ =>
      var mi := TargetMonth(date, t, count);
      if mi < 12 then None
      else if t == Weekday then NthWeekdayIn(date, mi)
      else if t == WeekdayLast then Some(LastWeekdayIn(date, mi))
      else Some(ClampedDayIn(date, mi))
  }

  // ---------------------------------------------------------------------------
  // The documented contract, one repeat type at a time

  /** Daily and weekly steps move by `count` days or `7 * count` days; `count` may be negative. */
  lemma {:induction false} IncDateDays(date: Date, count: int)
    requires ValidDate(date)
    ensures ValidDate(date + count) ==> IncDate(date, Daily, count) == Some(date + count)
    ensures ValidDate(date + 7 * count) ==> IncDate(date, Weekly, count) == Some(date + 7 * count)
    ensures !ValidDate(date + count) ==> IncDate(date, Daily, count).None?
    ensures !ValidDate(date + 7 * count) ==> IncDate(date, Weekly, count).None?
  {
  }

  /** Weekdays advance with the days. */
  lemma {:induction false} WeekdayOffset(a: int, x: int)
    ensures (DayOfWeek(x) - DayOfWeek(a)) % 7 == (x - a) % 7
  {
  }

  /** In a month starting on `first`, day `NthDay` has weekday `dw` and lies in the week of `day`. */
  lemma {:induction false} NthDayWeekday(first: int, dw: int, day: int)
    requires 0 <= dw < 7 && day >= 1
    ensures var n := NthDay(dw, DayOfWeek(first), day);
      && DayOfWeek(first + n - 1) == dw
      && WeekOfMonth(n) == WeekOfMonth(day)
  {
    WeekdayAlign(first, dw);
    WeekdayWeeks(first + (dw - DayOfWeek(first)) % 7, WeekOfMonth(day));
  }

  /** In the fifth week, `NthDay` is the only day from the 29th on with weekday `dw`. */
  lemma {:induction false} NthDayOnly(first: int, dw: int, day: int, d: int)
    requires 0 <= dw < 7 && day >= 1 && WeekOfMonth(day) == 4
    requires 29 <= d <= 31 && DayOfWeek(first + d - 1) == dw
    ensures d == NthDay(dw, DayOfWeek(first), day)
  {
    var n := NthDay(dw, DayOfWeek(first), day);
    NthDayWeekday(first, dw, day);
    if d <= n {
      WeekdaySame(first + d - 1, first + n - 1);
    } else {
      WeekdaySame(first + n - 1, first + d - 1);
    }
  }

  /** No day of month `mi` from the 29th on falls on the weekday of `date`. */
  predicate NoFifthWeekday(date: Date, mi: int)
    requires mi >= 12
  {
    forall day :: 29 <= day <= DaysInMonthAt(mi) ==> DayOfWeek(DayOfMonth(mi, day)) != DayOfWeek(date)
  }

  /** The Nth-weekday day lies in month `mi`, on the weekday of `date`, in the week of `date`. */
  lemma {:induction false} NthWeekdaySpec(date: Date, mi: int)
    requires ValidDate(date) && mi >= 12
    ensures var r, w := NthWeekdayIn(date, mi), WeekOfMonth(DateDay(date));
      && (w < 4 ==> r.Some?)
      && (r.Some? ==>
            && DateMonth(r.value) == mi
            && DayOfWeek(r.value) == DayOfWeek(date)
            && WeekOfMonth(DateDay(r.value)) == w)
      && (r.None? <==>
            w == 4 && NoFifthWeekday(date, mi))
  {
    var first, dw, dd := MonthStart(mi), DayOfWeek(date), DateDay(date);
    var n := NthDay(dw, DayOfWeek(first), dd);
    NthDayWeekday(first, dw, dd);
    if n <= DaysInMonthAt(mi) {
      assert NthWeekdayIn(date, mi) == Some(DayOfMonth(mi, n));
      DayOfMonthDate(mi, n);
    } else {
      assert NthWeekdayIn(date, mi).None?;
      forall d | 29 <= d <= DaysInMonthAt(mi)
        ensures DayOfWeek(DayOfMonth(mi, d)) != dw
      {
        if DayOfWeek(first + d - 1) == dw {
          NthDayOnly(first, dw, dd, d);
        }
      }
    }
  }

  /** The last-weekday day lies in the last seven days of month `mi`, on the weekday of `date`. */
  lemma {:induction false} LastWeekdaySpec(date: Date, mi: int)
    requires ValidDate(date) && mi >= 12
    ensures var r := LastWeekdayIn(date, mi);
      && DateMonth(r) == mi
      && DayOfWeek(r) == DayOfWeek(date)
      && DateDay(r) + 7 > DaysInMonthAt(mi)
  {
    var len := DaysInMonthAt(mi);
    var last := DayOfMonth(mi, len);
    var off := (DayOfWeek(last) - DayOfWeek(date)) % 7;
    WeekdayBack(last, DayOfWeek(date));
    assert LastWeekdayIn(date, mi) == DayOfMonth(mi, len - off);
    DayOfMonthDate(mi, len - off);
  }

  /** Where a monthly or yearly step lands: in month `mi`, on the day of `date` clamped to the month. */
  lemma {:induction false} ClampedDaySpec(date: Date, mi: int)
    requires ValidDate(date) && mi >= 12
    ensures DateMonth(ClampedDayIn(date, mi)) == mi
    ensures DateDay(ClampedDayIn(date, mi)) == Min(DateDay(date), DaysInMonthAt(mi))
  {
    DayOfMonthDate(mi, Min(DateDay(date), DaysInMonthAt(mi)));
  }

  /**
   * A monthly step moves by `count` months and keeps the day of the month, or
   * gives the last day of the target month when that day does not exist there.
   */
  lemma {:induction false} IncDateMonthly(date: Date, count: int)
    requires ValidDate(date)
    ensures IncDate(date, Monthly, count).Some? <==> DateMonth(date) + count >= 12
    ensures IncDate(date, Monthly, count).Some? ==>
      var r := IncDate(date, Monthly, count).value;
      var day, len := DateDay(date), DaysInMonthAt(DateMonth(r));
      && DateMonth(r) == DateMonth(date) + count
      && (day <= len ==> DateDay(r) == day)
      && (day > len ==> DateDay(r) == len)
  {
    var mi := DateMonth(date) + count;
    if mi >= 12 {
      assert IncDate(date, Monthly, count) == Some(ClampedDayIn(date, mi));
      ClampedDaySpec(date, mi);
    }
  }

  /** A yearly step keeps month and day, except that 29 February becomes 28 February in a common year. */
  lemma {:induction false} IncDateYearly(date: Date, count: int)
    requires ValidDate(date)
    ensures IncDate(date, Yearly, count).Some? <==> FromDate(date).year + count >= 1
    ensures IncDate(date, Yearly, count).Some? ==>
      var c, r := FromDate(date), FromDate(IncDate(date, Yearly, count).value);
      && r.year == c.year + count && r.month == c.month
      && r.day == (if c.month == 2 && c.day == 29 && !IsLeap(r.year) then 28 else c.day)
  {
    var c := FromDate(date);
    var y := c.year + count;
    var mi := DateMonth(date) + 12 * count;
    assert mi == y * 12 + c.month - 1;
    if mi >= 12 {
      assert IncDate(date, Yearly, count) == Some(ClampedDayIn(date, mi));
      var x := ClampedDayIn(date, mi);
      ClampedDaySpec(date, mi);
      assert YearOf(mi) == y && MonthOf(mi) == c.month;
      assert FromDate(x) == Civil(y, c.month, Min(c.day, DaysInMonthAt(mi)));
      ClampToYear(c.year, y, c.month, c.day);
    }
  }

  /** Clamping a valid day of month `m` of year `y` to the length of month `m` in year `y'`. */
  lemma {:induction false} ClampToYear(y: int, y': int, m: int, d: int)
    requires 1 <= m <= 12 && 1 <= d <= DaysInMonth(y, m)
    ensures Min(d, DaysInMonth(y', m)) == if m == 2 && d == 29 && !IsLeap(y') then 28 else d
  {
  }

  /**
   * An "Nth weekday" step lands on the same weekday in the same week of the
   * target month, and always succeeds in the first four weeks.
   */
  lemma {:induction false} IncDateWeekday(date: Date, count: int)
    requires ValidDate(date)
    requires DateMonth(date) + count >= 12
    ensures var day, r := DateDay(date), IncDate(date, Weekday, count);
      && (WeekOfMonth(day) < 4 ==> r.Some?)
      && (r.Some? ==>
            && DateMonth(r.value) == DateMonth(date) + count
            && DayOfWeek(r.value) == DayOfWeek(date)
            && WeekOfMonth(DateDay(r.value)) == WeekOfMonth(day))
  {
    var mi := DateMonth(date) + count;
    assert IncDate(date, Weekday, count) == NthWeekdayIn(date, mi);
    NthWeekdaySpec(date, mi);
  }

  /** An "Nth weekday" step fails exactly when it asks for a fifth week the target month lacks. */
  lemma {:induction false} IncDateWeekdayFails(date: Date, count: int)
    requires ValidDate(date)
    requires DateMonth(date) + count >= 12
    ensures IncDate(date, Weekday, count).None? <==>
      WeekOfMonth(DateDay(date)) == 4 && NoFifthWeekday(date, DateMonth(date) + count)
  {
    var mi := DateMonth(date) + count;
    assert IncDate(date, Weekday, count) == NthWeekdayIn(date, mi);
    NthWeekdaySpec(date, mi);
  }

  /** A "last weekday" step lands on the last day of the target month that has the same weekday. */
  lemma {:induction false} IncDateWeekdayLast(date: Date, count: int)
    requires ValidDate(date)
    requires DateMonth(date) + count >= 12
    ensures IncDate(date, WeekdayLast, count).Some?
    ensures var r := IncDate(date, WeekdayLast, count).value;
      && DateMonth(r) == DateMonth(date) + count
      && DayOfWeek(r) == DayOfWeek(date)
      && DateDay(r) + 7 > DaysInMonthAt(DateMonth(r))
  {
    var mi := DateMonth(date) + count;
    assert IncDate(date, WeekdayLast, count) == Some(LastWeekdayIn(date, mi));
    LastWeekdaySpec(date, mi);
  }

  // ---------------------------------------------------------------------------
  // Order: results grow with `count` and pass every bound

  /**
   * A lower bound of any result of `IncDate(start, t, c)`: the candidate
   * itself for daily and weekly steps, the first day of the target month
   * otherwise. It grows by at least one day per step of `c`.
   */
  function Floor(start: Date, t: RepeatType, c: int): Date
    requires ValidDate(start) && c >= 0
  {
    if t == Daily then start + c
    else if t == Weekly then start + 7 * c
    else MonthStart(TargetMonth(start, t, c))
  }

  /** A result for a month-based step lies inside its target month. */
  lemma {:induction false} InTargetMonth(start: Date, t: RepeatType, c: int)
    requires ValidDate(start) && c >= 0 && t != Daily && t != Weekly
    requires IncDate(start, t, c).Some?
    ensures TargetMonth(start, t, c) >= 12
    ensures MonthStart(TargetMonth(start, t, c)) <= IncDate(start, t, c).value < MonthStart(TargetMonth(start, t, c) + 1)
  {
    var mi := TargetMonth(start, t, c);
    if t == Weekday {
      assert IncDate(start, t, c) == NthWeekdayIn(start, mi);
      NthWeekdaySpec(start, mi);
    } else if t == WeekdayLast {
      assert IncDate(start, t, c) == Some(LastWeekdayIn(start, mi));
      LastWeekdaySpec(start, mi);
    } else {
      assert IncDate(start, t, c) == Some(ClampedDayIn(start, mi));
      ClampedDaySpec(start, mi);
    }
    assert DateMonth(IncDate(start, t, c).value) == mi;
  }

  lemma {:induction false} IncDateAboveFloor(start: Date, t: RepeatType, c: int)
    requires ValidDate(start) && c >= 0
    requires IncDate(start, t, c).Some?
    ensures Floor(start, t, c) <= IncDate(start, t, c).value
  {
    if t != Daily && t != Weekly {
      InTargetMonth(start, t, c);
    }
  }

  lemma {:induction false} FloorGrows(start: Date, t: RepeatType, c: int, c': int)
    requires ValidDate(start) && 0 <= c < c'
    ensures Floor(start, t, c) + (c' - c) <= Floor(start, t, c')
  {
    if t != Daily && t != Weekly {
      MonthStartGrowth(TargetMonth(start, t, c), TargetMonth(start, t, c'));
    }
  }

  lemma {:induction false} IncDateBelowFloor(start: Date, t: RepeatType, c: int, c': int)
    requires ValidDate(start) && 0 <= c < c'
    requires IncDate(start, t, c).Some?
    ensures IncDate(start, t, c).value < Floor(start, t, c')
  {
    if t != Daily && t != Weekly {
      InTargetMonth(start, t, c);
      MonthStartLess(TargetMonth(start, t, c), TargetMonth(start, t, c'));
    }
  }

  /** `inc_date` is strictly increasing in `count` (over the counts where it succeeds). */
  lemma {:induction false} IncDateIncreasing(start: Date, t: RepeatType, c: int, c': int)
    requires ValidDate(start) && 0 <= c < c'
    requires IncDate(start, t, c).Some? && IncDate(start, t, c').Some?
    ensures IncDate(start, t, c).value < IncDate(start, t, c').value
  {
    IncDateBelowFloor(start, t, c, c');
    IncDateAboveFloor(start, t, c');
  }

  /** A step by a positive count always moves forward. */
  lemma {:induction false} IncDateForward(date: Date, t: RepeatType, count: int)
    requires ValidDate(date) && count >= 1
    requires IncDate(date, t, count).Some?
    ensures IncDate(date, t, count).value > date
  {
    IncDateAboveFloor(date, t, count);
    if t != Daily && t != Weekly {
      MonthStartLess(DateMonth(date), TargetMonth(date, t, count));
    }
  }

  // ---------------------------------------------------------------------------
  // inc_date_skip

  /** Number of multiples of `count` that `IncDateSkip` tries: 400 years of months. */
  const SkipLimit: nat := 4800

  /** Tries `inc`, `inc + count`, ... (at most `fuel` of them) and returns the first valid date. */
  function SkipSearch(date: Date, t: RepeatType, count: int, inc: int, fuel: nat): (r: Option<Date>)
    requires ValidDate(date)
    ensures r.Some? && inc >= 1 && count >= 0 ==> r.value > date
    decreases fuel
  {
    if fuel == 0 then None
    else
      match IncDate(date, t, inc)
      case Some(x) =>
        if inc >= 1 then IncDateForward(date, t, inc); Some(x) else Some(x)
      case None => SkipSearch(date, t, count, inc + count, fuel - 1)
  }

  /**
   * `inc_date_skip`: `inc_date`, where an invalid date is skipped in favour of
   * the next multiple of `count` that gives a valid one.
   */
  function IncDateSkip(date: Date, t: RepeatType, count: int): (r: Option<Date>)
    requires ValidDate(date)
    ensures IncDate(date, t, count).Some? ==> r == IncDate(date, t, count)
    ensures r.Some? && count >= 1 ==> r.value > date
  {
    SkipSearch(date, t, count, count, SkipLimit)
  }

  lemma {:induction false} SkipSearchFinds(date: Date, t: RepeatType, count: int, inc: int, fuel: nat, j: nat)
    requires ValidDate(date) && j < fuel
    requires IncDate(date, t, inc + j * count).Some?
    ensures SkipSearch(date, t, count, inc, fuel).Some?
    decreases j
  {
    if IncDate(date, t, inc).None? {
      assert j > 0;
      assert (inc + count) + (j - 1) * count == inc + j * count;
      SkipSearchFinds(date, t, count, inc + count, fuel - 1, j - 1);
    }
  }

  /** A month laid out like the month of `date` (same first weekday, long enough) has its "Nth weekday". */
  lemma {:induction false} NthWeekdaySameLayout(date: Date, mi': int)
    requires ValidDate(date) && mi' >= 12
    requires DayOfWeek(MonthStart(mi')) == DayOfWeek(MonthStart(DateMonth(date)))
    requires DateDay(date) <= DaysInMonthAt(mi')
    ensures NthWeekdayIn(date, mi') == Some(DayOfMonth(mi', DateDay(date)))
  {
    var day := DateDay(date);
    WeekAlign(day, MonthStart(DateMonth(date)), MonthStart(mi'), date);
    assert NthDay(DayOfWeek(date), DayOfWeek(MonthStart(mi')), day) == day;
  }

  /** A date 4800 months (400 years) away keeps its weekday layout, so the same "Nth weekday" exists. */
  lemma {:induction false} WeekdayAfterPeriods(date: Date, k: nat)
    requires ValidDate(date)
    ensures IncDate(date, Weekday, 4800 * k).Some?
  {
    var mi := DateMonth(date);
    MonthStartPeriods(mi, k);
    WeekdayPeriod(MonthStart(mi), k);
    NthWeekdaySameLayout(date, mi + 4800 * k);
  }

  /** Day `day` of a month starting on `first`: its offset from the first weekday and its week give back `day`. */
  lemma {:induction false} WeekAlign(day: int, first: int, first': int, date: int)
    requires day >= 1 && date == first + day - 1 && DayOfWeek(first') == DayOfWeek(first)
    ensures NthDay(DayOfWeek(date), DayOfWeek(first'), day) == day
  {
  }

  /**
   * Outside "Nth weekday" steps, a step by a non-negative count always
   * succeeds: the target month or day exists.
   */
  lemma {:induction false} IncDateAlmostAlways(date: Date, t: RepeatType, count: int)
    requires ValidDate(date) && count >= 0 && t != Weekday
    ensures IncDate(date, t, count).Some?
  {
  }

  /** For "Nth weekday" steps the 4800th multiple of `count` is always valid. */
  lemma {:induction false} SkipFindsWeekday(date: Date, count: int)
    requires ValidDate(date) && count >= 1
    ensures IncDateSkip(date, Weekday, count).Some?
  {
    WeekdayAfterPeriods(date, count);
    assert count + (SkipLimit - 1) * count == 4800 * count;
    SkipSearchFinds(date, Weekday, count, count, SkipLimit, SkipLimit - 1);
  }

  /** `inc_date_skip` never fails and moves forward, for a valid date and a positive count. */
  lemma {:induction false} IncDateSkipSucceeds(date: Date, t: RepeatType, count: int)
    requires ValidDate(date) && count >= 1
    ensures IncDateSkip(date, t, count).Some?
    ensures IncDateSkip(date, t, count).value > date
  {
    if t == Weekday {
      SkipFindsWeekday(date, count);
    } else {
      IncDateAlmostAlways(date, t, count);
    }
  }
}
