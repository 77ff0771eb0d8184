/**
 * What `schedule_get_spawns` (ccore/schedule.c) computes, as functions of a
 * schedule's fields: the widened end bound, the nominal dates the loop
 * visits, the template in force at each of them and the spawns it emits.
 * The `Schedule` class is proved against these functions.
 */
module Spawning {
  import opened Wrappers
  import opened Calendar
  import opened Recurrence
  import opened Transactions

  // ---------------------------------------------------------------------------
  // The widened end bound

  /** A non-empty set has an element. */
  lemma {:induction false} NonEmpty(s: set<Date>)
    requires s != {}
    ensures exists x :: x in s
  {
    if forall x :: x !in s {
      assert false;
    }
  }

  ghost function Pick(s: set<Date>): (x: Date)
    requires s != {}
    ensures x in s
  {
    NonEmpty(s);
    var x :| x in s; x
  }

  /** The largest of `e` and the elements of `s`. */
  ghost function MaxWith(e: int, s: set<Date>): (r: int)
    ensures r >= e && (forall x :: x in s ==> x <= r)
    ensures r == e || r in s
    decreases |s|
  {
    if s == {} then e
    else
      var p := Pick(s);
      var r := MaxWith(if p > e then p else e, s - {p});
      assert forall x :: x in s ==> x == p || x in s - {p};
      r
  }

  /** Taking the elements of `s` in any order gives the same maximum. */
  lemma {:induction false} MaxWithStep(e: int, s: set<Date>, x: Date)
    requires x in s
    ensures MaxWith(e, s) == MaxWith(if x > e then x else e, s - {x})
  {
    var r1, r2 := MaxWith(e, s), MaxWith(if x > e then x else e, s - {x});
    assert forall y :: y in s ==> y == x || y in s - {x};
    assert r2 == e || r2 in s;
    assert r1 <= r2;
    assert r2 <= r1;
  }

  /** How far global change `txn`, keyed at nominal date `rd`, moves its occurrence back; 0 if it does not. */
  function BackShift(rd: Date, txn: Transaction): (r: int)
    ensures r >= 0 && (r > 0 <==> txn.date < rd)
  {
    if txn.date < rd then rd - txn.date else 0
  }

  /** The sum of the backward shifts of the global changes keyed in `keys`. */
  ghost function ShiftSum(changes: map<Date, Transaction>, keys: set<Date>): (r: int)
    requires keys <= changes.Keys
    ensures r >= 0
    decreases |keys|
  {
    if keys == {} then 0
    else
      var k := Pick(keys);
      BackShift(k, changes[k]) + ShiftSum(changes, keys - {k})
  }

  /** The sum does not depend on the order in which the keys are taken. */
  lemma {:induction false} ShiftSumRemove(changes: map<Date, Transaction>, keys: set<Date>, k: Date)
    requires keys <= changes.Keys && k in keys
    ensures ShiftSum(changes, keys) == BackShift(k, changes[k]) + ShiftSum(changes, keys - {k})
    decreases |keys|
  {
    var p := Pick(keys);
    if p != k {
      ShiftSumRemove(changes, keys - {p}, k);
      ShiftSumRemove(changes, keys - {k}, p);
      assert keys - {p} - {k} == keys - {k} - {p};
    }
  }

  /** With no change moving back, the sum is 0. */
  lemma {:induction false} ShiftSumNone(changes: map<Date, Transaction>, keys: set<Date>)
    requires keys <= changes.Keys
    requires forall k :: k in keys ==> changes[k].date >= k
    ensures ShiftSum(changes, keys) == 0
    decreases |keys|
  {
    if keys != {} {
      ShiftSumNone(changes, keys - {Pick(keys)});
    }
  }

  /**
   * The end bound `schedule_get_spawns` iterates to: `end` raised to the
   * latest deletion, then increased by every backward shift of a global
   * change, then clamped to `stop` when there is one.
   */
  ghost function WidenedEnd(end: Date, deletions: set<Date>, changes: map<Date, Transaction>, stop: Date): (r: Date)
    ensures stop > 0 ==> r <= stop
    ensures stop <= 0 || r < stop ==> r >= end && forall k :: k in deletions ==> k <= r
  {
    var e := MaxWith(end, deletions) + ShiftSum(changes, changes.Keys);
    if stop > 0 && e > stop then stop else e
  }

  lemma {:induction false} WidenedEndBounds(end: Date, deletions: set<Date>, changes: map<Date, Transaction>, stop: Date)
    ensures var r := WidenedEnd(end, deletions, changes, stop);
      && (stop > 0 ==> r <= stop)
      && (stop <= 0 || r < stop ==> r >= end && forall k :: k in deletions ==> k <= r)
      && (((forall k :: k in deletions ==> k <= end) && (forall k :: k in changes ==> changes[k].date >= k)
           && (stop <= 0 || end <= stop)) ==> r == end)
  {
    if (forall k :: k in changes ==> changes[k].date >= k) {
      ShiftSumNone(changes, changes.Keys);
    }
  }

  // ---------------------------------------------------------------------------
  // The nominal dates

  /** The date step `k` of the loop asks for: `inc_date(start, type, k * every)`. */
  function NominalAt(start: Date, t: RepeatType, every: nat, k: nat): Option<Date>
    requires ValidDate(start)
  {
    IncDate(start, t, k * every)
  }

  /** Step `k` ends the loop: it gives a date past `end`. */
  predicate Exits(start: Date, t: RepeatType, every: nat, end: Date, k: nat)
    requires ValidDate(start)
  {
    NominalAt(start, t, every, k).Some? && NominalAt(start, t, every, k).value > end
  }

  /** The date step `k` contributes: its own, when it has one not past `end`. */
  function Emitted(o: Option<Date>, end: Date): seq<Date>
  {
    if o.Some? && o.value <= end then [o.value] else []
  }

  /** The nominal dates of steps `0 .. n-1`, in step order. */
  function NominalDates(start: Date, t: RepeatType, every: nat, end: Date, n: nat): (r: seq<Date>)
    requires ValidDate(start)
    ensures |r| <= n
    ensures forall i :: 0 <= i < |r| ==> r[i] <= end
    decreases n
  {
    if n == 0 then []
    else NominalDates(start, t, every, end, n - 1) + Emitted(NominalAt(start, t, every, n - 1), end)
  }

  /** A date is a nominal date exactly when some step below `n` yields it and it is not past `end`. */
  lemma {:induction false} NominalDatesMember(start: Date, t: RepeatType, every: nat, end: Date, n: nat, d: Date)
    requires ValidDate(start)
    ensures d in NominalDates(start, t, every, end, n) <==>
      d <= end && exists k :: 0 <= k < n && NominalAt(start, t, every, k) == Some(d)
    decreases n
  {
    if n > 0 {
      NominalDatesMember(start, t, every, end, n - 1, d);
      var p, o := NominalDates(start, t, every, end, n - 1), NominalAt(start, t, every, n - 1);
      assert NominalDates(start, t, every, end, n) == p + Emitted(o, end);
      if o == Some(d) && d <= end {
        assert d in Emitted(o, end);
      }
    }
  }

  lemma {:induction false} StepLess(k: nat, m: nat, every: nat)
    requires k < m && every >= 1
    ensures k * every < m * every
  {
    assert m * every == k * every + (m - k) * every;
  }

  /** Later steps give later dates. */
  lemma {:induction false} NominalAtIncreasing(start: Date, t: RepeatType, every: nat, k: nat, m: nat)
    requires ValidDate(start) && every >= 1 && k < m
    requires NominalAt(start, t, every, k).Some? && NominalAt(start, t, every, m).Some?
    ensures NominalAt(start, t, every, k).value < NominalAt(start, t, every, m).value
  {
    var a, b := k * every, m * every;
    StepLess(k, m, every);
    assert NominalAt(start, t, every, k) == IncDate(start, t, a);
    assert NominalAt(start, t, every, m) == IncDate(start, t, b);
    IncDateIncreasing(start, t, a, b);
  }

  predicate Increasing(r: seq<Date>)
  {
    forall i, j :: 0 <= i < j < |r| ==> r[i] < r[j]
  }

  /** Every element of `r` is below `x`. */
  predicate Below(r: seq<Date>, x: Date)
  {
    forall i :: 0 <= i < |r| ==> r[i] < x
  }

  /** The nominal dates of the steps before `m` all lie before the date of step `m`. */
  lemma {:induction false} NominalDatesBelow(start: Date, t: RepeatType, every: nat, end: Date, n: nat, m: nat)
    requires ValidDate(start) && every >= 1 && n <= m
    requires NominalAt(start, t, every, m).Some?
    ensures Below(NominalDates(start, t, every, end, n), NominalAt(start, t, every, m).value)
    decreases n
  {
    if n > 0 {
      NominalDatesBelow(start, t, every, end, n - 1, m);
      var p, o := NominalDates(start, t, every, end, n - 1), NominalAt(start, t, every, n - 1);
      if o.Some? {
        NominalAtIncreasing(start, t, every, n - 1, m);
      }
      var x := NominalAt(start, t, every, m).value;
      var r := p + Emitted(o, end);
      assert NominalDates(start, t, every, end, n) == r;
      forall i | 0 <= i < |r|
        ensures r[i] < x
      {
        if i < |p| {
          assert r[i] == p[i];
        }
      }
    }
  }

  /** Nominal dates strictly increase. */
  lemma {:induction false} NominalDatesIncreasing(start: Date, t: RepeatType, every: nat, end: Date, n: nat)
    requires ValidDate(start) && every >= 1
    ensures Increasing(NominalDates(start, t, every, end, n))
    decreases n
  {
    if n > 0 {
      NominalDatesIncreasing(start, t, every, end, n - 1);
      var p, o := NominalDates(start, t, every, end, n - 1), NominalAt(start, t, every, n - 1);
      var r := p + Emitted(o, end);
      assert NominalDates(start, t, every, end, n) == r;
      if o.Some? && o.value <= end {
        NominalDatesBelow(start, t, every, end, n - 1, n - 1);
        forall i, j | 0 <= i < j < |r|
          ensures r[i] < r[j]
        {
          assert r[i] == p[i];
          if j < |p| {
            assert r[j] == p[j];
          }
        }
      } else {
        assert r == p;
      }
    }
  }

  /** After the exiting step, no step contributes a date. */
  lemma {:induction false} NothingAfterExit(start: Date, t: RepeatType, every: nat, end: Date, n: nat, k: nat)
    requires ValidDate(start) && every >= 1
    requires Exits(start, t, every, end, n) && n <= k
    ensures Emitted(NominalAt(start, t, every, k), end) == []
  {
    if n < k && NominalAt(start, t, every, k).Some? {
      NominalAtIncreasing(start, t, every, n, k);
    }
  }

  /** Once a step exits, no later step adds a nominal date. */
  lemma {:induction false} NominalDatesSettled(start: Date, t: RepeatType, every: nat, end: Date, n: nat, m: nat)
    requires ValidDate(start) && every >= 1
    requires Exits(start, t, every, end, n) && n <= m
    ensures NominalDates(start, t, every, end, m) == NominalDates(start, t, every, end, n)
    decreases m
  {
    if m > n {
      NominalDatesSettled(start, t, every, end, n, m - 1);
      NothingAfterExit(start, t, every, end, n, m - 1);
    }
  }

  /** Step `k` adds what it emits to the nominal dates of the steps before it. */
  lemma {:induction false} NominalDatesNext(start: Date, t: RepeatType, every: nat, end: Date, k: nat)
    requires ValidDate(start)
    ensures NominalDates(start, t, every, end, k + 1) ==
      NominalDates(start, t, every, end, k) + Emitted(NominalAt(start, t, every, k), end)
  {
  }

  /** A step count past which the loop has surely exited: a multiple of 4800 months. */
  function ExitBound(start: Date, end: Date): (r: nat)
    ensures r >= 1
  {
    4800 * (if end - start + 31 > 1 then end - start + 31 else 1)
  }

  lemma {:induction false} MulAssoc(a: nat, b: nat, c: nat)
    ensures a * b * c == a * (b * c)
  {
  }

  lemma {:induction false} FloorAtZero(start: Date, t: RepeatType)
    requires ValidDate(start)
    ensures Floor(start, t, 0) > start - 31
  {
    if t != Daily && t != Weekly {
      assert TargetMonth(start, t, 0) == DateMonth(start);
      MonthStartStep(DateMonth(start));
    }
  }

  /** The loop of `schedule_get_spawns` terminates: step `ExitBound` yields a date past `end`. */
  lemma {:induction false} ExitsAtBound(start: Date, t: RepeatType, every: nat, end: Date)
    requires ValidDate(start) && every >= 1
    ensures Exits(start, t, every, end, ExitBound(start, end))
  {
    var b: nat := if end - start + 31 > 1 then end - start + 31 else 1;
    var c := ExitBound(start, end) * every;
    MulAssoc(4800, b, every);
    assert b * every >= b;
    if t == Weekday {
      WeekdayAfterPeriods(start, b * every);
    } else {
      IncDateAlmostAlways(start, t, c);
    }
    IncDateAboveFloor(start, t, c);
    FloorGrows(start, t, 0, c);
    FloorAtZero(start, t);
  }

  /** No step below `k` exits. */
  predicate NoExitBefore(start: Date, t: RepeatType, every: nat, end: Date, k: nat)
    requires ValidDate(start)
  {
    forall j :: 0 <= j < k ==> !Exits(start, t, every, end, j)
  }

  /** A step that does not exit keeps the loop going, and the loop cannot get past `ExitBound`. */
  lemma {:induction false} NoExitStep(start: Date, t: RepeatType, every: nat, end: Date, k: nat)
    requires ValidDate(start) && every >= 1
    requires NoExitBefore(start, t, every, end, k) && !Exits(start, t, every, end, k)
    ensures NoExitBefore(start, t, every, end, k + 1)
    ensures k + 1 <= ExitBound(start, end)
  {
    ExitsAtBound(start, t, every, end);
  }

  // ---------------------------------------------------------------------------
  // Templates and spawns

  /** The template the loop copies, where it comes from, and the date shift it carries. */
  datatype InForce = InForce(template: Transaction, origin: Origin, delta: int)

  /**
   * The template in force after the loop has visited `dates`: the global
   * change at the latest visited date that has one, or the schedule's `ref`.
   */
  function InForceAfter(dates: seq<Date>, ref: Transaction, changes: map<Date, Transaction>): (r: InForce)
    ensures r == InForce(ref, ScheduleRef, 0) ||
      (r.origin.ChangeRef? && r.origin.key in dates && r.origin.key in changes &&
       r.template == changes[r.origin.key] && r.delta == changes[r.origin.key].date - r.origin.key)
    decreases |dates|
  {
    if |dates| == 0 then InForce(ref, ScheduleRef, 0)
    else
      var d := dates[|dates| - 1];
      if d in changes then InForce(changes[d], ChangeRef(d), changes[d].date - d)
      else InForceAfter(dates[..|dates| - 1], ref, changes)
  }

  /** Before any visited date with a global change, the schedule's own `ref` is in force, with no shift. */
  lemma {:induction false} InForceNoChange(dates: seq<Date>, ref: Transaction, changes: map<Date, Transaction>)
    requires forall i :: 0 <= i < |dates| ==> dates[i] !in changes
    ensures InForceAfter(dates, ref, changes) == InForce(ref, ScheduleRef, 0)
    decreases |dates|
  {
    if |dates| > 0 {
      InForceNoChange(dates[..|dates| - 1], ref, changes);
    }
  }

  /**
   * A global change keyed at a visited date is the template from that date
   * on, with shift `change.date - key`, until the next visited date that has
   * a global change.
   */
  lemma {:induction false} InForceLastChange(dates: seq<Date>, ref: Transaction, changes: map<Date, Transaction>, i: nat)
    requires i < |dates| && dates[i] in changes
    requires forall j :: i < j < |dates| ==> dates[j] !in changes
    ensures InForceAfter(dates, ref, changes) ==
      InForce(changes[dates[i]], ChangeRef(dates[i]), changes[dates[i]].date - dates[i])
    decreases |dates|
  {
    if i < |dates| - 1 {
      var p := dates[..|dates| - 1];
      assert forall j :: i < j < |p| ==> p[j] == dates[j];
      InForceLastChange(p, ref, changes, i);
    }
  }

  /** The spawn for nominal date `d`: a copy of the template in force, dated `d` plus its shift. */
  function MakeSpawn(f: InForce, d: Date): (r: Transaction)
    ensures r.txnType == Recurrence && r.recurrenceDate == d && r.date == d + f.delta && r.origin == f.origin
    ensures r.(txnType := f.template.txnType, date := f.template.date,
               recurrenceDate := f.template.recurrenceDate, origin := f.template.origin) == f.template
  {
    f.template.(txnType := Recurrence, date := d + f.delta, recurrenceDate := d, origin := f.origin)
  }

  /** The spawns, in order, for the visited nominal dates `dates`: one per date that is not deleted. */
  function SpawnsOf(dates: seq<Date>, ref: Transaction, changes: map<Date, Transaction>, deletions: set<Date>): (r: seq<Transaction>)
    ensures |r| <= |dates|
    ensures forall i :: 0 <= i < |r| ==> r[i].txnType == Recurrence && r[i].recurrenceDate !in deletions
    decreases |dates|
  {
    if |dates| == 0 then []
    else
      var d := dates[|dates| - 1];
      SpawnsOf(dates[..|dates| - 1], ref, changes, deletions) +
      (if d in deletions then [] else [MakeSpawn(InForceAfter(dates, ref, changes), d)])
  }

  /** Each of `r` is a schedule spawn for one of `dates` that is not deleted. */
  predicate SpawnedFrom(r: seq<Transaction>, dates: seq<Date>, deletions: set<Date>)
  {
    forall i :: 0 <= i < |r| ==>
      r[i].txnType == Recurrence && r[i].recurrenceDate in dates && r[i].recurrenceDate !in deletions
  }

  /** Every spawn is a schedule spawn for a visited date that is not deleted. */
  lemma {:induction false} SpawnsOfShape(dates: seq<Date>, ref: Transaction, changes: map<Date, Transaction>, deletions: set<Date>)
    ensures SpawnedFrom(SpawnsOf(dates, ref, changes, deletions), dates, deletions)
    decreases |dates|
  {
    if |dates| > 0 {
      var p := dates[..|dates| - 1];
      SpawnsOfShape(p, ref, changes, deletions);
      var sp := SpawnsOf(p, ref, changes, deletions);
      var r := SpawnsOf(dates, ref, changes, deletions);
      forall i | 0 <= i < |r|
        ensures r[i].txnType == Recurrence && r[i].recurrenceDate in dates && r[i].recurrenceDate !in deletions
      {
        SpawnsOfStep(dates, ref, changes, deletions);
        if i < |sp| {
          assert r[i] == sp[i];
          assert sp[i].recurrenceDate in p;
          var k :| 0 <= k < |p| && p[k] == sp[i].recurrenceDate;
          assert dates[k] == p[k];
        }
      }
    }
  }

  /** One step of `SpawnsOf`: the last visited date adds at most its own spawn. */
  lemma {:induction false} SpawnsOfStep(dates: seq<Date>, ref: Transaction, changes: map<Date, Transaction>, deletions: set<Date>)
    requires |dates| > 0
    ensures SpawnsOf(dates, ref, changes, deletions) ==
      SpawnsOf(dates[..|dates| - 1], ref, changes, deletions) +
      (if dates[|dates| - 1] in deletions then []
       else [MakeSpawn(InForceAfter(dates, ref, changes), dates[|dates| - 1])])
  {
  }

  /** A prefix of the prefix without the last date is a prefix of the whole. */
  lemma {:induction false} PrefixOfInit(dates: seq<Date>, j: nat)
    requires j + 1 < |dates|
    ensures dates[..|dates| - 1][..j + 1] == dates[..j + 1]
    ensures dates[..|dates| - 1][j] == dates[j]
  {
  }

  /** Visiting one more date `d`: its global change, if any, takes over. */
  lemma {:induction false} InForceAppend(dates: seq<Date>, d: Date, ref: Transaction, changes: map<Date, Transaction>)
    ensures InForceAfter(dates + [d], ref, changes) ==
      if d in changes then InForce(changes[d], ChangeRef(d), changes[d].date - d)
      else InForceAfter(dates, ref, changes)
  {
    assert (dates + [d])[..|dates|] == dates;
  }

  /** Visiting one more date `d` adds its spawn unless it is deleted. */
  lemma {:induction false} SpawnsOfAppend(dates: seq<Date>, d: Date, ref: Transaction, changes: map<Date, Transaction>, deletions: set<Date>)
    ensures SpawnsOf(dates + [d], ref, changes, deletions) ==
      SpawnsOf(dates, ref, changes, deletions) +
      (if d in deletions then [] else [MakeSpawn(InForceAfter(dates + [d], ref, changes), d)])
  {
    assert (dates + [d])[..|dates|] == dates;
  }

  /**
   * One turn of the loop of `schedule_get_spawns` that reaches date `d` of
   * step `k` within the bound: `d` joins the nominal dates, its global
   * change (if any) takes over, and its spawn is added unless it is deleted.
   */
  lemma {:induction false} VisitStep(start: Date, t: RepeatType, every: nat, end: Date, k: nat, d: Date,
                                     ref: Transaction, changes: map<Date, Transaction>, deletions: set<Date>)
    requires ValidDate(start) && NominalAt(start, t, every, k) == Some(d) && d <= end
    ensures NominalDates(start, t, every, end, k + 1) == NominalDates(start, t, every, end, k) + [d]
    ensures InForceAfter(NominalDates(start, t, every, end, k) + [d], ref, changes) ==
      if d in changes then InForce(changes[d], ChangeRef(d), changes[d].date - d)
      else InForceAfter(NominalDates(start, t, every, end, k), ref, changes)
    ensures SpawnsOf(NominalDates(start, t, every, end, k) + [d], ref, changes, deletions) ==
      SpawnsOf(NominalDates(start, t, every, end, k), ref, changes, deletions) +
      (if d in deletions then []
       else [MakeSpawn(InForceAfter(NominalDates(start, t, every, end, k) + [d], ref, changes), d)])
  {
    var dates := NominalDates(start, t, every, end, k);
    NominalDatesNext(start, t, every, end, k);
    InForceAppend(dates, d, ref, changes);
    SpawnsOfAppend(dates, d, ref, changes, deletions);
  }

  /**
   * Every spawn is the copy, for one visited date, of the template in force
   * at that date, dated that date plus the template's shift.
   */
  lemma {:induction false} SpawnsOfSound(dates: seq<Date>, ref: Transaction, changes: map<Date, Transaction>, deletions: set<Date>, i: nat)
    requires i < |SpawnsOf(dates, ref, changes, deletions)|
    ensures exists j :: (0 <= j < |dates| &&
      SpawnsOf(dates, ref, changes, deletions)[i] == MakeSpawn(InForceAfter(dates[..j + 1], ref, changes), dates[j]))
    decreases |dates|
  {
    var n := |dates|;
    var p := dates[..n - 1];
    var sp := SpawnsOf(p, ref, changes, deletions);
    SpawnsOfStep(dates, ref, changes, deletions);
    var r := SpawnsOf(dates, ref, changes, deletions);
    if i < |sp| {
      assert r[i] == sp[i];
      SpawnsOfSound(p, ref, changes, deletions, i);
      var j :| 0 <= j < |p| && sp[i] == MakeSpawn(InForceAfter(p[..j + 1], ref, changes), p[j]);
      PrefixOfInit(dates, j);
      assert r[i] == MakeSpawn(InForceAfter(dates[..j + 1], ref, changes), dates[j]);
    } else {
      assert dates[..n - 1 + 1] == dates;
      assert r[i] == MakeSpawn(InForceAfter(dates[..n - 1 + 1], ref, changes), dates[n - 1]);
    }
  }

  /** Every visited date that is not deleted has its spawn. */
  lemma {:induction false} SpawnsOfComplete(dates: seq<Date>, ref: Transaction, changes: map<Date, Transaction>, deletions: set<Date>, j: nat)
    requires j < |dates| && dates[j] !in deletions
    ensures MakeSpawn(InForceAfter(dates[..j + 1], ref, changes), dates[j]) in SpawnsOf(dates, ref, changes, deletions)
    decreases |dates|
  {
    var n := |dates|;
    var p := dates[..n - 1];
    SpawnsOfStep(dates, ref, changes, deletions);
    var x := MakeSpawn(InForceAfter(dates[..j + 1], ref, changes), dates[j]);
    if j < n - 1 {
      PrefixOfInit(dates, j);
      SpawnsOfComplete(p, ref, changes, deletions, j);
      assert x in SpawnsOf(p, ref, changes, deletions);
    } else {
      assert dates[..j + 1] == dates;
      assert x == MakeSpawn(InForceAfter(dates, ref, changes), dates[n - 1]);
    }
  }

  /** Spawns ordered by nominal date. */
  predicate Ordered(r: seq<Transaction>)
  {
    forall i, j :: 0 <= i < j < |r| ==> r[i].recurrenceDate < r[j].recurrenceDate
  }

  /** Spawns come out in the order of their nominal dates. */
  lemma {:induction false} SpawnsOfOrdered(dates: seq<Date>, ref: Transaction, changes: map<Date, Transaction>, deletions: set<Date>)
    requires Increasing(dates)
    ensures Ordered(SpawnsOf(dates, ref, changes, deletions))
    decreases |dates|
  {
    var n := |dates|;
    if n > 0 {
      var p := dates[..n - 1];
      assert Increasing(p) by {
        forall i, j | 0 <= i < j < |p| ensures p[i] < p[j] {
          assert p[i] == dates[i] && p[j] == dates[j];
        }
      }
      SpawnsOfOrdered(p, ref, changes, deletions);
      SpawnsOfShape(p, ref, changes, deletions);
      var sp := SpawnsOf(p, ref, changes, deletions);
      var d := dates[n - 1];
      forall i | 0 <= i < |sp|
        ensures sp[i].recurrenceDate < d
      {
        assert sp[i].recurrenceDate in p;
        var k :| 0 <= k < |p| && p[k] == sp[i].recurrenceDate;
        assert p[k] == dates[k];
      }
      var r := SpawnsOf(dates, ref, changes, deletions);
      if d !in deletions {
        var x := MakeSpawn(InForceAfter(dates, ref, changes), d);
        assert r == sp + [x];
        forall i, j | 0 <= i < j < |r|
          ensures r[i].recurrenceDate < r[j].recurrenceDate
        {
          assert r[i] == sp[i];
          if j < |sp| {
            assert r[j] == sp[j];
          }
        }
      }
    }
  }
}
