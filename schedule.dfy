/**
 * `ccore/schedule.c`: a recurring transaction. A schedule holds a template
 * transaction `ref`, a repeat type and interval, an optional stop date, the
 * set of deleted nominal dates and the global changes: templates that take
 * over from a nominal date on.
 */
module Schedules {
  import opened Wrappers
  import opened Calendar
  import opened Recurrence
  import opened Transactions
  import opened Spawning

  // ---------------------------------------------------------------------------
  // schedule_update_ref, on values

  /** Every global change carries a date `inc_date` can step from. */
  predicate ChangesValid(changes: map<Date, Transaction>)
  {
    forall k :: k in changes ==> ValidDate(changes[k].date)
  }

  /**
   * The loop at the head of `schedule_update_ref`: from `date`, step with
   * `inc_date_skip` while the date is deleted.
   */
  function FirstUndeleted(date: Date, t: RepeatType, every: nat, deletions: set<Date>): (r: Date)
    requires ValidDate(date) && every >= 1
    ensures ValidDate(r) && r >= date && r !in deletions
    ensures date !in deletions ==> r == date
    decreases |set k | k in deletions && k >= date|
  {
    if date !in deletions then date
    else
      IncDateSkipSucceeds(date, t, every);
      var next := IncDateSkip(date, t, every).value;
      LaterFewer(deletions, date, next);
      FirstUndeleted(next, t, every, deletions)
  }

  /** Moving the lower bound past a member of `s` leaves fewer members above it. */
  lemma {:induction false} LaterFewer(s: set<Date>, a: Date, b: Date)
    requires a in s && a < b
    ensures |set k | k in s && k >= b| < |set k | k in s && k >= a|
  {
    var lo, hi := set k | k in s && k >= a, set k | k in s && k >= b;
    assert hi <= lo - {a};
    SubsetCard(hi, lo - {a});
  }

  lemma {:induction false} SubsetCard(a: set<Date>, b: set<Date>)
    requires a <= b
    ensures |a| <= |b|
    decreases |b|
  {
    if b != {} {
      var x := Pick(b);
      SubsetCard(a - {x}, b - {x});
    }
  }

  /** The fields `schedule_update_ref` reads and writes. */
  datatype Exceptions = Exceptions(ref: Transaction, deletions: set<Date>, changes: map<Date, Transaction>)

  /**
   * `schedule_update_ref`: the template moves to the first undeleted date
   * from its own (becoming the global change there, when there is one), and
   * every deletion and global change at or before that date is dropped.
   */
  function Updated(x: Exceptions, t: RepeatType, every: nat): (r: Exceptions)
    requires ValidDate(x.ref.date) && every >= 1
    ensures forall k :: k in r.deletions ==> k in x.deletions && k > x.ref.date
    ensures forall k :: k in r.changes ==> k in x.changes && r.changes[k] == x.changes[k] && k > x.ref.date
    ensures r.ref in x.changes.Values ||
      (r.ref == x.ref.(date := r.ref.date) && r.ref.date >= x.ref.date && r.ref.date !in x.deletions)
  {
    var d := FirstUndeleted(x.ref.date, t, every, x.deletions);
    Exceptions(
      if d in x.changes then x.changes[d] else x.ref.(date := d),
      set k | k in x.deletions && k > d,
      map k | k in x.changes && k > d :: x.changes[k])
  }

  /**
   * After the update no deletion and no global change remains at or before
   * the first undeleted date, every later one is kept, and the template is
   * the global change at that date or the old template moved to it.
   */
  lemma {:induction false} UpdatedPurges(x: Exceptions, t: RepeatType, every: nat, k: Date)
    requires ValidDate(x.ref.date) && every >= 1
    ensures var d, r := FirstUndeleted(x.ref.date, t, every, x.deletions), Updated(x, t, every);
      && (k in r.deletions <==> k in x.deletions && k > d)
      && (k in r.changes <==> k in x.changes && k > d)
      && (k in r.changes ==> r.changes[k] == x.changes[k])
      && (d in x.changes ==> r.ref == x.changes[d])
      && (d !in x.changes ==> r.ref == x.ref.(date := d))
  {
  }

  /** The template keeps a date `inc_date` can step from. */
  lemma {:induction false} UpdatedValid(x: Exceptions, t: RepeatType, every: nat)
    requires ValidDate(x.ref.date) && every >= 1 && ChangesValid(x.changes)
    ensures ValidDate(Updated(x, t, every).ref.date)
    ensures ChangesValid(Updated(x, t, every).changes)
  {
  }

  /** A template that is not deleted and has nothing at or before its date is left as it is. */
  lemma {:induction false} UpdatedSettled(x: Exceptions, t: RepeatType, every: nat)
    requires ValidDate(x.ref.date) && every >= 1
    requires forall k :: k in x.deletions ==> k > x.ref.date
    requires forall k :: k in x.changes ==> k > x.ref.date
    ensures Updated(x, t, every) == x
  {
    var r := Updated(x, t, every);
    assert r.deletions == x.deletions;
    assert r.changes == x.changes;
  }

  /**
   * Updating twice is updating once, unless the new template came from a
   * global change (whose own date may lie anywhere).
   */
  lemma {:induction false} UpdatedIdempotent(x: Exceptions, t: RepeatType, every: nat)
    requires ValidDate(x.ref.date) && every >= 1
    requires FirstUndeleted(x.ref.date, t, every, x.deletions) !in x.changes
    ensures Updated(Updated(x, t, every), t, every) == Updated(x, t, every)
  {
    UpdatedSettled(Updated(x, t, every), t, every);
  }

  /** Deleting the template's own date moves the template to a later date. */
  lemma {:induction false} DeleteStartAdvances(x: Exceptions, t: RepeatType, every: nat)
    requires ValidDate(x.ref.date) && every >= 1
    requires x.ref.date !in x.changes && x.ref.date in x.deletions
    ensures FirstUndeleted(x.ref.date, t, every, x.deletions) > x.ref.date
    ensures FirstUndeleted(x.ref.date, t, every, x.deletions) !in x.changes ==>
      Updated(x, t, every).ref.date > x.ref.date
  {
  }

  // ---------------------------------------------------------------------------
  // schedule_get_spawns, on values

  /** The spawns `schedule_get_spawns(end)` returns for a schedule with these fields. */
  ghost function SpawnsFor(ref: Transaction, t: RepeatType, every: nat, stop: Date,
                           deletions: set<Date>, changes: map<Date, Transaction>, end: Date): seq<Transaction>
    requires ValidDate(ref.date)
  {
    var e := WidenedEnd(end, deletions, changes, stop);
    SpawnsOf(NominalDates(ref.date, t, every, e, ExitBound(ref.date, e)), ref, changes, deletions)
  }

  /** Spawns come out by increasing nominal date, which is the order of the counts passed to `inc_date`. */
  lemma {:induction false} SpawnsInOrder(ref: Transaction, t: RepeatType, every: nat, stop: Date,
                                         deletions: set<Date>, changes: map<Date, Transaction>, end: Date)
    requires ValidDate(ref.date) && every >= 1
    ensures Ordered(SpawnsFor(ref, t, every, stop, deletions, changes, end))
  {
    var e := WidenedEnd(end, deletions, changes, stop);
    var dates := NominalDates(ref.date, t, every, e, ExitBound(ref.date, e));
    NominalDatesIncreasing(ref.date, t, every, e, ExitBound(ref.date, e));
    SpawnsOfOrdered(dates, ref, changes, deletions);
  }

  /**
   * Every spawn is a schedule spawn whose nominal date is a date `inc_date`
   * gives for some step, is not deleted and is no later than the widened
   * end bound.
   */
  lemma {:induction false} SpawnsWithinBound(ref: Transaction, t: RepeatType, every: nat, stop: Date,
                                             deletions: set<Date>, changes: map<Date, Transaction>, end: Date, i: nat)
    requires ValidDate(ref.date)
    requires i < |SpawnsFor(ref, t, every, stop, deletions, changes, end)|
    ensures var s, e := SpawnsFor(ref, t, every, stop, deletions, changes, end)[i], WidenedEnd(end, deletions, changes, stop);
      && s.txnType == Recurrence
      && s.recurrenceDate !in deletions
      && s.recurrenceDate <= e
      && (exists k :: NominalAt(ref.date, t, every, k) == Some(s.recurrenceDate))
  {
    var e := WidenedEnd(end, deletions, changes, stop);
    var n := ExitBound(ref.date, e);
    var dates := NominalDates(ref.date, t, every, e, n);
    SpawnsOfShape(dates, ref, changes, deletions);
    var s := SpawnsOf(dates, ref, changes, deletions)[i];
    assert s.recurrenceDate in dates;
    NominalDatesMember(ref.date, t, every, e, n, s.recurrenceDate);
  }

  lemma {:induction false} MulSucc(k: nat, n: nat)
    ensures (k + 1) * n == k * n + n
  {
    assert (k + 1) * n == k * n + 1 * n;
  }

  // ---------------------------------------------------------------------------
  // The schedule

  class Schedule {
    var ref: Transaction
    var repeatType: RepeatType
    var every: nat
    var stop: Date
    var deletions: set<Date>
    var globalChanges: map<Date, Transaction>

    /** A schedule `schedule_get_spawns` and `schedule_update_ref` can run on. */
    predicate Valid()
      reads this
    {
      every >= 1 && ValidDate(ref.date) && ChangesValid(globalChanges)
    }

    function Exc(): Exceptions
      reads this
    {
      Exceptions(ref, deletions, globalChanges)
    }

    /** `schedule_init`: no stop date, no deletion, no global change. */
    constructor Init(ref: Transaction, repeatType: RepeatType, every: nat)
      ensures this.ref == ref && this.repeatType == repeatType && this.every == every
      ensures stop == NoDate && deletions == {} && globalChanges == map[]
      ensures every >= 1 && ValidDate(ref.date) ==> Valid()
    {
      this.ref := ref;
      this.repeatType := repeatType;
      this.every := every;
      stop := NoDate;
      deletions := {};
      globalChanges := map[];
    }

    /**
     * `schedule_copy`: a schedule with the same template, type, interval and
     * stop date, whose tables are filled entry by entry from `src`'s.
     */
    constructor Copy(src: Schedule)
      ensures ref == src.ref && repeatType == src.repeatType && every == src.every && stop == src.stop
      ensures deletions == src.deletions && globalChanges == src.globalChanges
      ensures src.Valid() ==> Valid()
    {
      var srcDeletions, srcChanges := src.deletions, src.globalChanges;
      ref := src.ref;
      repeatType := src.repeatType;
      every := src.every;
      stop := src.stop;
      deletions := {};
      globalChanges := map[];
      new;
      ResetExceptions();
      AddDeletions(srcDeletions);
      AddChanges(srcChanges);
      assert deletions == srcDeletions;
      assert globalChanges == srcChanges;
    }

    /** The first copy loop of `schedule_copy`: each of `keys` is added to the deletions. */
    method AddDeletions(keys: set<Date>)
      modifies this
      ensures deletions == old(deletions) + keys
      ensures ref == old(ref) && repeatType == old(repeatType) && every == old(every) && stop == old(stop)
      ensures globalChanges == old(globalChanges)
    {
      var todo := keys;
      while todo != {}
        invariant todo <= keys
        invariant deletions == old(deletions) + (keys - todo)
        invariant ref == old(ref) && repeatType == old(repeatType) && every == old(every) && stop == old(stop)
        invariant globalChanges == old(globalChanges)
        decreases |todo|
      {
        NonEmpty(todo);
        var k :| k in todo;
        deletions := deletions + {k};
        todo := todo - {k};
      }
    }

    /** The second copy loop of `schedule_copy`: each entry of `changes` is inserted into the global changes. */
    method AddChanges(changes: map<Date, Transaction>)
      modifies this
      ensures globalChanges == old(globalChanges) + changes
      ensures ref == old(ref) && repeatType == old(repeatType) && every == old(every) && stop == old(stop)
      ensures deletions == old(deletions)
    {
      var keys := changes.Keys;
      while keys != {}
        invariant keys <= changes.Keys
        invariant globalChanges == old(globalChanges) + map k | k in changes && k !in keys :: changes[k]
        invariant ref == old(ref) && repeatType == old(repeatType) && every == old(every) && stop == old(stop)
        invariant deletions == old(deletions)
        decreases |keys|
      {
        NonEmpty(keys);
        var k :| k in keys;
        globalChanges := globalChanges[k := changes[k]];
        keys := keys - {k};
      }
    }

    /** `schedule_is_deleted_at`. */
    predicate IsDeletedAt(date: Date)
      reads this
    {
      date in deletions
    }

    /** `schedule_reset_exceptions`: both tables are emptied. */
    method ResetExceptions()
      modifies this
      ensures deletions == {} && globalChanges == map[]
      ensures ref == old(ref) && repeatType == old(repeatType) && every == old(every) && stop == old(stop)
    {
      deletions := {};
      globalChanges := map[];
    }

    /** `schedule_update_ref`, proved against `Updated`. */
    method UpdateRef()
      requires Valid()
      modifies this
      ensures Valid()
      ensures Exc() == Updated(old(Exc()), repeatType, every)
      ensures repeatType == old(repeatType) && every == old(every) && stop == old(stop)
    {
      var t, ev, dels, start := repeatType, every, deletions, ref.date;
      ghost var x := Exc();
      var date := start;
      while IsDeletedAt(date)
        invariant ValidDate(date)
        invariant Exc() == x && t == repeatType && ev == every && stop == old(stop) && Valid()
        invariant FirstUndeleted(date, t, ev, dels) == FirstUndeleted(start, t, ev, dels)
        decreases |set k | k in dels && k >= date|
      {
        IncDateSkipSucceeds(date, t, ev);
        var next := IncDateSkip(date, t, ev).value;
        LaterFewer(dels, date, next);
        date := next;
      }
      assert date == FirstUndeleted(x.ref.date, repeatType, every, x.deletions);
      if date in globalChanges {
        ref := globalChanges[date];
        globalChanges := globalChanges - {date};
      } else {
        ref := ref.(date := date);
      }
      PurgeDeletions(date);
      PurgeChanges(date);
      UpdatedValid(x, repeatType, every);
    }

    /** The first removal loop of `schedule_update_ref`: deletions at or before `date` go. */
    method PurgeDeletions(date: Date)
      modifies this
      ensures deletions == set k | k in old(deletions) && k > date
      ensures ref == old(ref) && repeatType == old(repeatType) && every == old(every) && stop == old(stop)
      ensures globalChanges == old(globalChanges)
    {
      var snapshot := deletions;
      var todo := snapshot;
      while todo != {}
        invariant todo <= snapshot
        invariant deletions == set k | k in snapshot && (k in todo || k > date)
        invariant ref == old(ref) && repeatType == old(repeatType) && every == old(every) && stop == old(stop)
        invariant globalChanges == old(globalChanges)
        decreases |todo|
      {
        NonEmpty(todo);
        var k :| k in todo;
        if k <= date {
          deletions := deletions - {k};
        }
        todo := todo - {k};
      }
    }

    /** The second removal loop of `schedule_update_ref`: global changes at or before `date` go. */
    method PurgeChanges(date: Date)
      modifies this
      ensures globalChanges == map k | k in old(globalChanges) && k > date :: old(globalChanges)[k]
      ensures ref == old(ref) && repeatType == old(repeatType) && every == old(every) && stop == old(stop)
      ensures deletions == old(deletions)
    {
      var changes := globalChanges;
      var keys := changes.Keys;
      while keys != {}
        invariant keys <= changes.Keys
        invariant globalChanges == map k | k in changes && (k in keys || k > date) :: changes[k]
        invariant ref == old(ref) && repeatType == old(repeatType) && every == old(every) && stop == old(stop)
        invariant deletions == old(deletions)
        decreases |keys|
      {
        NonEmpty(keys);
        var k :| k in keys;
        if k <= date {
          globalChanges := globalChanges - {k};
        }
        keys := keys - {k};
      }
    }

    /** `schedule_delete_at`: the date is recorded as deleted, then the template is updated. */
    method DeleteAt(date: Date)
      requires Valid()
      modifies this
      ensures Valid()
      ensures Exc() == Updated(old(Exc()).(deletions := old(deletions) + {date}), repeatType, every)
      ensures repeatType == old(repeatType) && every == old(every) && stop == old(stop)
    {
      deletions := deletions + {date};
      UpdateRef();
    }

    /**
     * `schedule_add_global_change`: `txn` is recorded as the template from
     * `date` on, then the template is updated. Later entries are kept.
     */
    method AddGlobalChange(date: Date, txn: Transaction)
      requires Valid() && ValidDate(txn.date)
      modifies this
      ensures Valid()
      ensures Exc() == Updated(old(Exc()).(changes := old(globalChanges)[date := txn]), repeatType, every)
      ensures repeatType == old(repeatType) && every == old(every) && stop == old(stop)
    {
      globalChanges := globalChanges[date := txn];
      UpdateRef();
    }

    /**
     * The first half of `schedule_get_spawns`: `end` raised to the latest
     * deletion, increased by every backward shift of a global change, then
     * clamped to the stop date.
     */
    method WidenEnd(end: Date) returns (e: Date)
      ensures e == WidenedEnd(end, deletions, globalChanges, stop)
    {
      // Raise the bound to the latest deletion.
      e := end;
      var todo := deletions;
      while todo != {}
        invariant todo <= deletions
        invariant MaxWith(e, todo) == MaxWith(end, deletions)
        decreases |todo|
      {
        NonEmpty(todo);
        var k :| k in todo;
        MaxWithStep(e, todo, k);
        if k > e {
          e := k;
        }
        todo := todo - {k};
      }
      // Add every backward shift of a global change.
      var keys := globalChanges.Keys;
      while keys != {}
        invariant keys <= globalChanges.Keys
        invariant e + ShiftSum(globalChanges, keys) ==
          MaxWith(end, deletions) + ShiftSum(globalChanges, globalChanges.Keys)
        decreases |keys|
      {
        NonEmpty(keys);
        var k :| k in keys;
        ShiftSumRemove(globalChanges, keys, k);
        var rd, vd := k, globalChanges[k].date;
        if vd < rd {
          e := e + (rd - vd);
        }
        keys := keys - {k};
      }
      if stop > 0 && e > stop {
        e := stop;
      }
    }

    /**
     * What `schedule_get_spawns(end)` returns: the spawns for the nominal
     * dates up to the widened end bound.
     */
    ghost function Spawns(end: Date): seq<Transaction>
      requires Valid()
      reads this
    {
      SpawnsFor(ref, repeatType, every, stop, deletions, globalChanges, end)
    }

    /**
     * `schedule_get_spawns`: widen `end`, then step through the nominal dates,
     * switching template at each global change and skipping deleted dates.
     * The result is built in order (the C code prepends, then reverses).
     */
    method GetSpawns(end: Date) returns (res: seq<Transaction>)
      requires Valid()
      ensures res == Spawns(end)
    {
      var e := WidenEnd(end);
      var start := ref.date;
      var t, ev, dels, changes, r0 := repeatType, every, deletions, globalChanges, ref;
      var current, origin, delta := ref, ScheduleRef, 0;
      var incsize: nat := 0;
      ghost var k: nat := 0;
      ghost var dates: seq<Date> := [];
      res := [];
      while true
        invariant incsize == k * ev && k <= ExitBound(start, e)
        invariant NoExitBefore(start, t, ev, e, k)
        invariant dates == NominalDates(start, t, ev, e, k)
        invariant InForce(current, origin, delta) == InForceAfter(dates, r0, changes)
        invariant res == SpawnsOf(dates, r0, changes, dels)
        decreases ExitBound(start, e) - k
      {
        var date := IncDate(start, t, incsize);
        assert date == NominalAt(start, t, ev, k);
        MulSucc(k, ev);
        incsize := incsize + ev;
        if date.Some? && date.value > e {
          NominalDatesSettled(start, t, ev, e, k, ExitBound(start, e));
          break;
        }
        NoExitStep(start, t, ev, e, k);
        if date.None? {
          NominalDatesNext(start, t, ev, e, k);
          k := k + 1;
          continue;
        }
        var d := date.value;
        VisitStep(start, t, ev, e, k, d, r0, changes, dels);
        if d in changes {
          current, origin, delta := changes[d], ChangeRef(d), changes[d].date - d;
        }
        if d !in dels {
          res := res + [MakeSpawn(InForce(current, origin, delta), d)];
        }
        dates := dates + [d];
        k := k + 1;
      }
    }
  }
}
