/**
 * `core/model/recurrence.py`: the description of a repeat type shown in the
 * schedule panel, and the lookup of the schedule a spawn's template belongs
 * to. Translation (`tr`) and the weekday name (`strftime('%A')`) are
 * parameters.
 */
module RecurrenceDescriptions {
  import opened Wrappers
  import opened Calendar
  import opened Recurrence

  // ---------------------------------------------------------------------------
  // Python's `%` formatting, for `%s` and `%%`

  /**
   * `fmt % tuple(args)`: each `%s` takes the next argument and `%%` gives a
   * `%`. Too few or too many arguments is a `TypeError`; any other directive
   * is reported as a `ValueError`.
   */
  function Format(fmt: string, args: seq<string>): (r: Result<string>)
    ensures r.Err? ==> r.error == TypeError || r.error == ValueError
    decreases |fmt|
  {
    if |fmt| == 0 then (if |args| == 0 then Ok("") else Err(TypeError))
    else if fmt[0] != '%' then Prepend([fmt[0]], Format(fmt[1..], args))
    else if |fmt| >= 2 && fmt[1] == '%' then Prepend("%", Format(fmt[2..], args))
    else if |fmt| >= 2 && fmt[1] == 's' then
      if |args| == 0 then Err(TypeError) else Prepend(args[0], Format(fmt[2..], args[1..]))
    else Err(ValueError)
  }

  function Prepend(p: string, r: Result<string>): Result<string>
  {
    if r.Ok? then Ok(p + r.value) else r
  }

  /** Text without `%` formats to itself when there is nothing to substitute. */
  lemma {:induction false} FormatPlain(fmt: string)
    requires forall i :: 0 <= i < |fmt| ==> fmt[i] != '%'
    ensures Format(fmt, []) == Ok(fmt)
    decreases |fmt|
  {
    if |fmt| > 0 {
      FormatPlain(fmt[1..]);
      assert [fmt[0]] + fmt[1..] == fmt;
    }
  }

  /** Plain text, one `%s`, plain text: the argument lands between the two. */
  lemma {:induction false} FormatOne(a: string, b: string, arg: string)
    requires forall i :: 0 <= i < |a| ==> a[i] != '%'
    requires forall i :: 0 <= i < |b| ==> b[i] != '%'
    ensures Format(a + "%s" + b, [arg]) == Ok(a + arg + b)
    decreases |a|
  {
    if |a| == 0 {
      assert a + "%s" + b == "%s" + b;
      var f := "%s" + b;
      assert f[0] == '%' && f[1] == 's' && f[2..] == b;
      assert [arg][1..] == [];
      FormatPlain(b);
      assert Format(f, [arg]) == Prepend(arg, Format(b, []));
      assert a + arg + b == arg + b;
    } else {
      assert (a + "%s" + b)[1..] == a[1..] + "%s" + b;
      FormatOne(a[1..], b, arg);
      assert [a[0]] + (a[1..] + arg + b) == a + arg + b;
    }
  }

  // ---------------------------------------------------------------------------
  // get_repeat_type_desc

  /** The fixed part of the dictionary: empty for the two types described dynamically. */
  function FixedDesc(t: RepeatType, tr: string -> string): string
  {
    match t
    case Daily => tr("Daily")
    case Weekly => tr("Weekly")
    case Monthly => tr("Monthly")
    case Yearly => tr("Yearly")
    case Weekday => ""
    case WeekdayLast => ""
  }

  /** The week of the month of a day of the month, as an index into the five positions. */
  function WeekNo(day: int): int { (day - 1) / 7 }

  function Positions(tr: string -> string): seq<string>
  {
    [tr("first"), tr("second"), tr("third"), tr("fourth"), tr("fifth")]
  }

  /**
   * `get_repeat_type_desc(repeat_type, start_date)`, with the repeat type
   * given by its enum value. An unknown value is the dictionary's
   * `KeyError`; `Ok(None)` is the function falling off its end, which
   * happens only when a fixed description translates to the empty string.
   */
  function RepeatTypeDesc(code: int, start: Date, tr: string -> string, weekdayName: string): (r: Result<Option<string>>)
    requires ValidDate(start)
    ensures !(1 <= code <= 6) ==> r == Err(KeyError)
    ensures r == Ok(None) ==> 1 <= code <= 4 && tr(["Daily", "Weekly", "Monthly", "Yearly"][code - 1]) == ""
  {
    var ot := RepeatTypeFromCode(code);
    if ot.None? then Err(KeyError)
    else
      var t := ot.value;
      var res := FixedDesc(t, tr);
      if res != "" then Ok(Some(res))
      else if t == Weekday then
        var weekNo := WeekNo(DateDay(start));
        WeekNoInRange(DateDay(start));
        AsSome(Format(tr("Every %s %s of the month"), [Positions(tr)[weekNo], weekdayName]))
      else if t == WeekdayLast then
        if DaysInMonthAt(DateMonth(start)) - DateDay(start) < 7 then
          AsSome(Format(tr("Every last %s of the month"), [weekdayName]))
        else Ok(Some(""))
      else Ok(None)
  }

  function AsSome(r: Result<string>): Result<Option<string>>
  {
    if r.Ok? then Ok(Some(r.value)) else Err(r.error)
  }

  /** Days 1..31 fall in weeks 0..4, so the position list is never indexed out of range. */
  lemma {:induction false} WeekNoInRange(day: int)
    requires 1 <= day <= 31
    ensures 0 <= WeekNo(day) < 5
    ensures WeekNo(day) == WeekOfMonth(day)
  {
  }

  /** Repeat types outside the six enum values have no entry in the dictionary. */
  lemma {:induction false} DescUnknownType(code: int, start: Date, tr: string -> string, weekdayName: string)
    requires ValidDate(start)
    ensures RepeatTypeDesc(code, start, tr, weekdayName) == Err(KeyError) <==> !(1 <= code <= 6)
  {
    RepeatTypeCodes(Daily, code);
  }

  /** Daily, weekly, monthly and yearly descriptions do not depend on the start date. */
  lemma {:induction false} DescFixed(t: RepeatType, start: Date, start': Date, tr: string -> string, weekdayName: string, weekdayName': string)
    requires ValidDate(start) && ValidDate(start')
    requires t in {Daily, Weekly, Monthly, Yearly}
    ensures RepeatTypeDesc(RepeatTypeCode(t), start, tr, weekdayName) ==
      RepeatTypeDesc(RepeatTypeCode(t), start', tr, weekdayName')
    ensures RepeatTypeDesc(RepeatTypeCode(t), start, tr, weekdayName).Ok?
  {
    RepeatTypeCodes(t, 0);
  }

  /**
   * The "Nth weekday" description names the week of the month of the start
   * date: the week `inc_date` keeps for that repeat type.
   */
  lemma {:induction false} DescWeekdayPosition(start: Date, tr: string -> string, weekdayName: string)
    requires ValidDate(start)
    ensures RepeatTypeDesc(5, start, tr, weekdayName) ==
      AsSome(Format(tr("Every %s %s of the month"), [Positions(tr)[WeekOfMonth(DateDay(start))], weekdayName]))
  {
    WeekNoInRange(DateDay(start));
  }

  /**
   * The "last weekday" description is given exactly when the start date is
   * the last of its weekday in its month, the date `inc_date` gives for a
   * step of 0 months; otherwise the description is empty.
   */
  lemma {:induction false} DescLastWeekday(start: Date, tr: string -> string, weekdayName: string)
    requires ValidDate(start)
    ensures LastWeekdayIn(start, DateMonth(start)) == start ==>
      RepeatTypeDesc(6, start, tr, weekdayName) == AsSome(Format(tr("Every last %s of the month"), [weekdayName]))
    ensures LastWeekdayIn(start, DateMonth(start)) != start ==>
      RepeatTypeDesc(6, start, tr, weekdayName) == Ok(Some(""))
  {
    IsLastWeekday(start);
  }

  /** A date is the last of its weekday in its month exactly when fewer than 7 days of the month follow it. */
  lemma {:induction false} IsLastWeekday(date: Date)
    requires ValidDate(date)
    ensures LastWeekdayIn(date, DateMonth(date)) == date <==> DaysInMonthAt(DateMonth(date)) - DateDay(date) < 7
  {
    var mi := DateMonth(date);
    var r := LastWeekdayIn(date, mi);
    LastWeekdaySpec(date, mi);
    DateMonthOf(r, mi);
    DateMonthOf(date, mi);
    if DaysInMonthAt(mi) - DateDay(date) < 7 {
      if r < date {
        WeekdaySame(r, date);
      } else {
        WeekdaySame(date, r);
      }
    }
  }

  // ---------------------------------------------------------------------------
  // find_schedule_of_ref

  /**
   * `find_schedule_of_ref(ref, schedules)`: the first schedule whose
   * `contains_ref(ref)` holds, or none. `containsRef` stands for that test,
   * which the C recurrence object implements.
   */
  function FindScheduleOfRef<S>(schedules: seq<S>, containsRef: S -> bool): (r: Option<nat>)
    ensures r.Some? ==> r.value < |schedules| && containsRef(schedules[r.value])
    ensures r.Some? ==> forall i :: 0 <= i < r.value ==> !containsRef(schedules[i])
    ensures r.None? ==> forall i :: 0 <= i < |schedules| ==> !containsRef(schedules[i])
    decreases |schedules|
  {
    if |schedules| == 0 then None
    else if containsRef(schedules[0]) then Some(0)
    else
      var r := FindScheduleOfRef(schedules[1..], containsRef);
      if r.Some? then Some(r.value + 1) else None
  }
}
