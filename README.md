# moneyguru core, modelled in Dafny

moneyguru is a personal finance application. This project models the parts
of its core that decide what a schedule produces and how a document is
written out, together with the small pieces of interface logic around them:

- **Recurrence** (`ccore/recurrence.h`). Repeat types, plus the date
  arithmetic `inc_date` and `inc_date_skip`. Dates are whole days since
  1970-01-01 (`time_t / SECS_IN_DAY`), on the proleptic Gregorian calendar
  (module `Calendar`).
- **Schedules** (`ccore/schedule.c`). A schedule holds a reference
  transaction, a repeat type, a step and an optional stop date. It also holds
  two exception tables: deleted spawn dates and global changes. The model
  covers creation and copying, deletions and global changes, the
  `update_ref` normalisation, and `get_spawns`, which lists the spawned
  transactions up to an end date. `Schedules.Schedule` is a class whose
  fields the methods update. The order of the spawns and the template each
  one copies are specified in module `Spawning`.
- **Splits** (`ccore/split.c`). The split setters that unreconcile a split,
  split copying, and split equality.
- **Oven** (`core/model/oven.py`). Cooking: how far back an incremental cook
  must restart, what it keeps of the earlier cooked list, and where it stops.
- **Native save** (`ccore/save/native.c`). The XML document `save_native`
  writes. The output file is an `OutFile` object that accumulates what
  `fwrite` writes. Every write method is proved against a token-level
  description of the document.
- **Currencies and rate fetching** (`core/model/currency.py`). The list of
  registered currencies, and the fetch plan `ensure_rates` builds, with
  chunks of at most 30 days.
- **Main window** (`core/gui/main_window.py`). Tab navigation, closing a tab,
  and which panel "edit" opens.
- **Preferences** (`qt/preferences.py`). How values are normalised for the
  settings store and converted back when read, and the saved window geometry.
- **Accelerator keys** (`qt/util.py`). `setAccelKeys` and `escapeamp`.

Where Python or C raises or returns an error code, the model returns a
`Result` or `Option` (module `Wrappers`). Calls the core makes into code that
is not part of this model are parameters. These are `oven_cook_txns`,
`amount_format`, markup escaping, the translation function `tr`, the date
store behind `RatesDB.date_range`, `fopen`, and today's date.

Notes on the code:

- `split_eq` returns right after comparing the account names. The amount
  comparison after that return is never reached, so the model's `SplitEq`
  compares accounts only.
- `Currencies.has` returns before the lookup that follows it, so membership
  in `codes` alone decides.
- In `schedule_get_spawns`, a step for which `inc_date` fails skips to the
  next count. The loop ends only at a date past the widened end. The model
  proves that such a date is always reached when `every >= 1`.
- `save_native` ignores the result of `write_txn` for a schedule's reference
  transaction and for its global changes (`ccore/save/native.c:171`, `:183`).
  Only ledger transactions can end the save with `-2`.

## Model

| member | source | states |
|---|---|---|
| Calendar.DaysInMonth | ccore/recurrence.h:23-26 | every month has 28 to 31 days |
| Calendar.FromDate | ccore/save/native.c:27-29 | the civil date of a day number is a valid year, month and day, in the month and on the day that the day number falls in |
| Calendar.FromToDate | ccore/save/native.c:24-30 | converting a valid civil date to a day number and back gives the same civil date |
| Calendar.ToFromDate | ccore/save/native.c:24-30 | converting a day number to a civil date and back gives the same day number |
| Calendar.ToDateInjective | ccore/save/native.c:24-30 | different civil dates have different day numbers |
| Calendar.WeekdayWeeks | ccore/recurrence.h:22 | moving by whole weeks keeps the weekday |
| Calendar.MonthStartPeriods | ccore/recurrence.h:37-47 | the calendar repeats every 4800 months (146097 days), so month layouts recur |
| Recurrence.RepeatTypeCodes | ccore/recurrence.h:5-12 | the repeat types are numbered 1 to 6; the numbering is one-to-one and decodes back |
| Recurrence.RepeatTypeName | ccore/recurrence.h:49-52 | a repeat type's name reads back as that same type |
| Recurrence.RepeatTypeNames | ccore/recurrence.h:49-52 | every repeat type's name reads back as that type, and a name that reads back is that type's name |
| Recurrence.IncDate | ccore/recurrence.h:14-35 | a date it returns is a valid date; None stands for the -1 error result |
| Recurrence.IncDateDays | ccore/recurrence.h:21-22 | daily adds `count` days; weekly adds `7 * count` days; negative counts step back |
| Recurrence.ClampedDaySpec | ccore/recurrence.h:23-24 | the monthly target keeps the day of month, or takes the last day when the month is shorter |
| Recurrence.IncDateMonthly | ccore/recurrence.h:23-24 | monthly lands in month `m + count` on the same day, or on that month's last day when the day is missing |
| Recurrence.IncDateYearly | ccore/recurrence.h:25-26 | yearly lands in the same month `count` years on, same day, or the 28th for a missing 29 February |
| Recurrence.ClampToYear | ccore/recurrence.h:25-26 | only 29 February is clamped when stepping whole years, and it becomes the 28th |
| Recurrence.NthWeekdaySpec | ccore/recurrence.h:27-28 | the "Nth weekday" target has the start's weekday and week of month, or is absent in a month without a fifth one |
| Recurrence.IncDateWeekday | ccore/recurrence.h:27-28 | a successful weekday step keeps the weekday and the week of the month in the target month |
| Recurrence.IncDateWeekdayFails | ccore/recurrence.h:18-20 | the weekday step fails exactly when the start is in week 5 and the target month has no fifth such weekday |
| Recurrence.IncDateAlmostAlways | ccore/recurrence.h:18-20 | for a non-negative count, every repeat type but the weekday one always succeeds |
| Recurrence.LastWeekdaySpec | ccore/recurrence.h:29-30 | the "last weekday" target is the last day of its month with the start's weekday |
| Recurrence.IncDateWeekdayLast | ccore/recurrence.h:29-30 | the last-weekday step lands on the last day of the target month with the start's weekday |
| Recurrence.IncDateIncreasing | ccore/recurrence.h:14-35 | results grow strictly with the count for a fixed start and type |
| Recurrence.IncDateForward | ccore/recurrence.h:14-35 | a positive count gives a later date |
| Recurrence.SkipSearch | ccore/recurrence.h:37-47 | a date the skip search finds for a positive step lies after the start date |
| Recurrence.SkipSearchFinds | ccore/recurrence.h:37-47 | if some multiple within the bound succeeds, the search returns a date |
| Recurrence.SkipFindsWeekday | ccore/recurrence.h:37-47 | for the weekday type, 4800 months on always gives a date, so the skip search succeeds |
| Recurrence.IncDateSkipSucceeds | ccore/recurrence.h:43-44 | `inc_date_skip` never fails on a valid date with a positive count |
| Recurrence.IncDateSkip | ccore/recurrence.h:37-47 | when `inc_date` succeeds, `inc_date_skip` returns the same date; a date it returns for a positive count lies after the start |
| RecurrenceDescriptions.FormatPlain | core/model/recurrence.py:34 | a template without `%` formats to itself |
| RecurrenceDescriptions.FormatOne | core/model/recurrence.py:38 | a template with one `%s` has the argument put in its place |
| RecurrenceDescriptions.Format | core/model/recurrence.py:34 | formatting fails only with `TypeError` (argument count) or `ValueError` (bad directive) |
| RecurrenceDescriptions.WeekNoInRange | core/model/recurrence.py:32-33 | `(day - 1) // 7` is between 0 and 4, so the position lookup cannot fail |
| RecurrenceDescriptions.DescUnknownType | core/model/recurrence.py:19-26 | a code raises `KeyError` exactly when it is not a repeat type (1 to 6) |
| RecurrenceDescriptions.RepeatTypeDesc | core/model/recurrence.py:19-40 | a code that is not a repeat type raises `KeyError`; the function falls off its end (None) only for a daily to yearly type whose translated description is empty |
| RecurrenceDescriptions.DescFixed | core/model/recurrence.py:19-28 | daily, weekly, monthly and yearly descriptions succeed and do not depend on the start date |
| RecurrenceDescriptions.DescWeekdayPosition | core/model/recurrence.py:29-34 | the weekday description names the start's week of the month and weekday |
| RecurrenceDescriptions.IsLastWeekday | core/model/recurrence.py:35-37 | fewer than 7 days of the month follow a date exactly when it is the last such weekday of its month |
| RecurrenceDescriptions.DescLastWeekday | core/model/recurrence.py:35-40 | the last-weekday description is given exactly when the start is the month's last such weekday, and is empty otherwise |
| RecurrenceDescriptions.FindScheduleOfRef | core/model/recurrence.py:15-16 | returns the first schedule containing the reference, or none when no schedule contains it |
| Splits.Split.Init | ccore/split.c:4-14 | a new split has the given account, amount and index, no reconciliation date, an empty memo and no reference |
| Splits.Split.SetAccount | ccore/split.c:23-30 | changing the account unreconciles the split; setting the same account changes nothing |
| Splits.Split.SetAmount | ccore/split.c:32-39 | the amount is replaced; the split is unreconciled exactly when the old amount had a currency and the new currency differs |
| Splits.Split.CopyFrom | ccore/split.c:41-54 | the destination takes the source's account, amount, reconciliation date, memo and reference, and keeps its index |
| Splits.SplitEqEquivalence | ccore/split.c:56-70 | split equality is reflexive, symmetric and transitive |
| Splits.SplitEq | ccore/split.c:56-70 | splits with the same account, or both without one, are equal; a split with an account never equals one without |
| Splits.SplitEqAccountOnly | ccore/split.c:56-70 | changing either split's amount, memo or reconciliation date never changes whether the two are equal |
| Splits.CopyIsEqual | ccore/split.c:41-54 | a copied split is equal to its source |
| Schedules.Updated | ccore/schedule.c:162-198 | every deletion and global change left is an old one dated after the old reference date; the new reference is a global change, or the old reference moved forward to an undeleted date |
| Schedules.FirstUndeleted | ccore/schedule.c:165-173 | the `update_ref` loop ends on a valid date, no earlier than the start, that is not deleted; an undeleted start is kept |
| Schedules.UpdatedPurges | ccore/schedule.c:174-197 | after `update_ref`, no exception is left at or before the first undeleted date (the date the `update_ref` loop stops on), and every later one is kept; when a global change at that date becomes the reference, its own date may be later |
| Schedules.UpdatedValid | ccore/schedule.c:162-198 | `update_ref` keeps the reference date and every global change's date valid |
| Schedules.UpdatedSettled | ccore/schedule.c:162-198 | with no exception at or before the reference date, `update_ref` changes nothing |
| Schedules.UpdatedIdempotent | ccore/schedule.c:162-198 | when the first undeleted date has no global change, calling `update_ref` a second time changes nothing |
| Schedules.DeleteStartAdvances | ccore/schedule.c:83-88 | deleting the reference date's spawn moves the reference date forward |
| Schedules.SpawnsInOrder | ccore/schedule.c:125-151 | the spawns come out by strictly increasing recurrence date |
| Schedules.SpawnsWithinBound | ccore/schedule.c:125-149 | every spawn is a recurrence at an `inc_date` result for some step, not deleted and not past the widened end |
| Schedules.Schedule.Init | ccore/schedule.c:13-35 | a new schedule has the given reference, type and step, no stop date and empty exception tables |
| Schedules.Schedule.Copy | ccore/schedule.c:58-81 | the copy has the source's fields and both exception tables, and is valid when the source is |
| Schedules.Schedule.AddDeletions | ccore/schedule.c:69-72 | the source's deletions are added and nothing else changes |
| Schedules.Schedule.AddChanges | ccore/schedule.c:73-79 | the source's global changes are added and nothing else changes |
| Schedules.Schedule.ResetExceptions | ccore/schedule.c:155-160 | both exception tables become empty; the other fields are kept |
| Schedules.Schedule.UpdateRef | ccore/schedule.c:162-198 | the reference and the exception tables become `Updated` of the old ones, and validity is kept |
| Schedules.Schedule.PurgeDeletions | ccore/schedule.c:184-191 | exactly the deletions at or before the date are removed |
| Schedules.Schedule.PurgeChanges | ccore/schedule.c:192-197 | exactly the global changes at or before the date are removed |
| Schedules.Schedule.DeleteAt | ccore/schedule.c:83-88 | the date is added to the deletions and the reference is updated |
| Schedules.Schedule.AddGlobalChange | ccore/schedule.c:46-56 | the change is stored under its date (replacing any earlier one) and the reference is updated |
| Schedules.Schedule.WidenEnd | ccore/schedule.c:104-122 | the loop bound is the end raised to the last deletion, plus every backward shift of a global change, capped at the stop date |
| Schedules.Schedule.GetSpawns | ccore/schedule.c:96-153 | returns exactly the spawns `SpawnsOf` gives for the nominal dates up to the widened end; the loop terminates |
| Spawning.MaxWith | ccore/schedule.c:106-111 | the raised end is at least `end` and every deletion, and is `end` or one of the deletions |
| Spawning.MaxWithStep | ccore/schedule.c:106-111 | visiting deletions one at a time in any order gives the same raised end |
| Spawning.BackShift | ccore/schedule.c:114-118 | a global change adds to the end bound exactly when it moves its spawn earlier |
| Spawning.ShiftSumRemove | ccore/schedule.c:112-119 | the total shift is the same whatever order the changes are visited in |
| Spawning.ShiftSumNone | ccore/schedule.c:112-119 | with no backward change, the end bound is not widened |
| Spawning.WidenedEndBounds | ccore/schedule.c:104-122 | the widened end is at most the stop date, and otherwise covers `end` and every deletion; with nothing to widen it is `end` |
| Spawning.WidenedEnd | ccore/schedule.c:104-122 | the widened end is at most the stop date; below the stop date it covers `end` and every deletion |
| Spawning.NominalDates | ccore/schedule.c:125-133 | at most one visited date per step, and none past the end |
| Spawning.NominalDatesMember | ccore/schedule.c:125-133 | a date is visited exactly when some step gives it and it is not past the end |
| Spawning.NominalAtIncreasing | ccore/schedule.c:125-127 | later steps give later dates |
| Spawning.NominalDatesIncreasing | ccore/schedule.c:125-133 | the visited dates strictly increase |
| Spawning.NothingAfterExit | ccore/schedule.c:131-133 | once a step is past the end, no later step is visited |
| Spawning.NominalDatesSettled | ccore/schedule.c:131-133 | running more steps after the exit adds no visited date |
| Spawning.ExitsAtBound | ccore/schedule.c:125-133 | a step past the end exists within a bound computed from the start and the end |
| Spawning.NoExitStep | ccore/schedule.c:128-133 | a step that does not exit leaves the loop below the bound |
| Spawning.InForceAfter | ccore/schedule.c:134-139 | the template in force is the schedule's reference, or a global change keyed at a visited date with its date shift |
| Spawning.InForceNoChange | ccore/schedule.c:134-139 | until a visited date has a global change, the reference is in force with no shift |
| Spawning.InForceLastChange | ccore/schedule.c:134-139 | the latest visited global change is in force, shifted by its date minus its key |
| Spawning.MakeSpawn | ccore/schedule.c:140-148 | a spawn is a recurrence for its nominal date, dated that date plus the shift, tagged with the template's origin, and otherwise a copy of the template |
| Spawning.SpawnsOf | ccore/schedule.c:134-149 | at most one spawn per visited date; every spawn is a recurrence whose nominal date is not deleted |
| Spawning.SpawnsOfShape | ccore/schedule.c:140-149 | every spawn is a recurrence for a visited date that is not deleted |
| Spawning.SpawnsOfSound | ccore/schedule.c:134-149 | every spawn is the template in force at its date, dated that date plus the shift |
| Spawning.SpawnsOfComplete | ccore/schedule.c:140-149 | every visited date that is not deleted has its spawn |
| Spawning.SpawnsOfOrdered | ccore/schedule.c:148-151 | for increasing visited dates, the spawns are in increasing recurrence-date order |
| Spawning.VisitStep | ccore/schedule.c:126-149 | one loop turn appends the new date's spawn, and updates the template in force as the source does |
| Ovens.LowerForSplits | core/model/oven.py:66-69 | the start date is lowered to the transaction date, or kept, and never raised |
| Ovens.LowerFor | core/model/oven.py:62-69 | one cooked transaction lowers the start date to its own date or leaves it |
| Ovens.LoweredFrom | core/model/oven.py:62-69 | the reverse scan never raises the start date, and lowers it only to a cooked transaction's date |
| Ovens.LoweredBelowSpawns | core/model/oven.py:62-65 | the start date ends up no later than any cooked spawn |
| Ovens.LoweredByReconciled | core/model/oven.py:66-69 | a split reconciled on or after the start date lowers the start to its transaction's date |
| Ovens.LoweredUnchanged | core/model/oven.py:62-69 | with no later spawn and no late reconciliation, the start date is kept |
| Ovens.SplitsUnchanged | core/model/oven.py:66-69 | splits without a late reconciliation leave the start date unchanged |
| Ovens.RetainedMember | core/model/oven.py:77 | a transaction is kept exactly when it is cooked and dated before the start |
| Ovens.RetainedAppend | core/model/oven.py:77 | the filter keeps list order and distributes over concatenation |
| Ovens.RetainedNoSpawns | core/model/oven.py:62-77 | after lowering, no spawn is kept, so the spawns are always cooked again |
| Ovens.InsertByDate | core/model/oven.py:70 | inserting into a date-sorted list keeps it sorted and adds exactly one element |
| Ovens.SortByDate | core/model/oven.py:70 | the sorted raw transactions are ordered by date and are a permutation of the input |
| Ovens.CookFrom | core/model/oven.py:53-69 | with no `from_date`, cooking starts at the minimal date; otherwise no later than `from_date` |
| Ovens.CookUntil | core/model/oven.py:70-72 | a given `until_date` is kept; without one, cooking reaches the last of the sorted raw transactions, or stops at the start date when there are none |
| Ovens.Kept | core/model/oven.py:73-77 | what is kept are earlier cooked transactions dated before the start |
| Ovens.Oven.constructor | core/model/oven.py:22-29 | a new oven has the raw transactions, no cooked ones and has cooked until the minimal date |
| Ovens.Oven.Cook | core/model/oven.py:42-83 | raw transactions are sorted, the kept prefix is followed by the newly cooked ones, and the cooked-until date is recorded |
| Ovens.Oven.Lower | core/model/oven.py:62-69 | the reverse loop computes the lowered start date |
| Ovens.Oven.LowerSplits | core/model/oven.py:66-69 | the split loop computes the lowering for one transaction |
| Ovens.Oven.ContinueCooking | core/model/oven.py:31-40 | cooks from the last stop up to `until` when `until` is later, and otherwise changes nothing |
| Decimal.NatStr | ccore/save/native.c:28-29 | `%d` of a natural is a non-empty digit string without a superfluous leading zero |
| NativeSave.Pad2 | ccore/save/native.c:28-29 | `%02d` of a number below 100 is exactly two digits |
| Decimal.ParseNatStr | ccore/save/native.c:28-29 | a number's decimal text reads back as that number |
| NativeSave.ParseDate | ccore/save/native.c:24-30 | reading a date text gives a valid civil date or nothing at all |
| NativeSave.ParsePad2 | ccore/save/native.c:28-29 | a two-digit field reads back as its number |
| NativeSave.ParseCivilOf | ccore/save/native.c:24-30 | the `Y-MM-DD` text of a civil date reads back as its year, month and day |
| NativeSave.Date2Str | ccore/save/native.c:24-30 | the text `date2str` writes for a date reads back as that same date |
| NativeSave.Date2StrInjective | ccore/save/native.c:24-30 | different dates are written as different texts |
| NativeSave.EscapeNewlineConcat | ccore/save/native.c:5-12 | escaping distributes over concatenation |
| NativeSave.EscapeNewlineChar | ccore/save/native.c:5-12 | a newline becomes backslash-n and any other character is kept |
| NativeSave.EscapeNewline | ccore/save/native.c:5-12 | escaped text contains no newline and is at least as long as the original |
| NativeSave.EscapeNewlinePlain | ccore/save/native.c:5-12 | text without a newline is unchanged |
| NativeSave.RenderAppend | ccore/save/native.c:18-19 | the file text of consecutive writes is the concatenation of their texts |
| NativeSave.FirstUnformattedSpec | ccore/save/native.c:66-71 | every split before that index formats, and the split at it does not |
| NativeSave.TxnTokens | ccore/save/native.c:44-92 | the closing `transaction` tag is written exactly when every split amount formats |
| NativeSave.TxnCode | ccore/save/native.c:44-92 | `write_txn` returns 0 or -2, and 0 exactly when every split amount formats |
| NativeSave.TxnOutcome | ccore/save/native.c:44-92 | `write_txn` returns -2 exactly when some split amount does not format, and 0 otherwise |
| NativeSave.NoClosingInOpen | ccore/save/native.c:47-64 | the opening tag and attributes hold no closing `transaction` tag |
| NativeSave.NoClosingInSplits | ccore/save/native.c:66-87 | the split elements hold no closing `transaction` tag, so a failed write leaves the element unclosed |
| NativeSave.FirstFailingSpec | ccore/save/native.c:149-155 | every transaction before that index writes with 0, and the one at it fails |
| NativeSave.VisitStep | ccore/save/native.c:173-186 | visiting one more key of a hash table walk keeps every key visited once and the visited and remaining keys covering the table |
| NativeSave.ListingSize | ccore/save/native.c:175-178 | a table walk has as many steps as the table has keys |
| NativeSave.ExceptionsOfListing | ccore/save/native.c:175-178 | a date other than 0 is written as an exception exactly when it is a deletion, and there is one step per deletion |
| NativeSave.ExceptionsDays | ccore/save/native.c:175-178 | a date other than 0 appears in the exception elements exactly when it is in the walk |
| NativeSave.OutFile.constructor | ccore/save/native.c:103 | a new file is empty |
| NativeSave.OutFile.Write | ccore/save/native.c:19 | a write appends its tokens and nothing else |
| NativeSave.OutFile.Truncate | ccore/save/native.c:103 | opening for writing empties the file |
| NativeSave.SetAttrib | ccore/save/native.c:14-22 | writes the formatted attribute when the value is present, and nothing otherwise |
| NativeSave.WriteDate | ccore/save/native.c:32-42 | writes the formatted date when it is not 0, and nothing otherwise |
| NativeSave.WriteNotes | ccore/save/native.c:58-62 | writes the notes attribute with newlines escaped, when there are notes |
| NativeSave.WriteTxnOpen | ccore/save/native.c:47-64 | writes the opening tag with date, mtime, the optional attributes, and `>` |
| NativeSave.WriteSplit | ccore/save/native.c:72-86 | writes one split element: account name (empty without account), amount, optional memo, reference and reconciliation date |
| NativeSave.WriteTxn | ccore/save/native.c:44-92 | on success writes the whole element and returns 0; otherwise writes up to the failing split and returns -2 |
| NativeSave.WriteAccount | ccore/save/native.c:126-146 | writes one account element with its optional attributes, inactive flag and escaped notes |
| NativeSave.WriteExceptions | ccore/save/native.c:173-178 | writes one exception per deletion, each deletion once |
| NativeSave.WriteChange | ccore/save/native.c:182-185 | writes one change element around the changed transaction |
| NativeSave.WriteChanges | ccore/save/native.c:180-186 | writes one change element per global change, each key once |
| NativeSave.WriteSchedule | ccore/save/native.c:162-188 | writes one recurrence element with type name, step, stop date, reference, exceptions and changes |
| NativeSave.WriteAccounts | ccore/save/native.c:125-147 | writes the account elements in list order |
| NativeSave.WriteTxns | ccore/save/native.c:149-155 | writes transactions up to the first failing one and returns its code, or all of them and 0 |
| NativeSave.WriteSchedules | ccore/save/native.c:157-190 | writes the recurrence elements in list order |
| NativeSave.SaveNative | ccore/save/native.c:94-195 | returns -1 without writing when the file cannot be opened; returns the failing transaction's code with the file written up to it; otherwise writes the whole document and returns 0 |
| Currency.UpperOfCase | core/model/currency.py:35-37 | upper-casing an upper-cased or lower-cased code gives its upper-cased form |
| Currency.KeyLeTotal | core/model/currency.py:108 | the sort key (priority, then code) orders any two entries |
| Currency.KeyLeTransitive | core/model/currency.py:108 | the sort key ordering is transitive |
| Currency.InsertContents | core/model/currency.py:108 | inserting adds exactly that entry and its code |
| Currency.InsertSorted | core/model/currency.py:108 | inserting into a sorted list keeps it sorted |
| Currency.SortEntriesProperties | core/model/currency.py:106-108 | sorting gives a list ordered by priority then code that is a permutation of the input with the same codes |
| Currency.SortedAllPairs | core/model/currency.py:108 | in a sorted list every earlier entry's key is at most every later one's |
| Currency.FilterMembers | core/model/currency.py:67 | the filter keeps exactly the entries whose code is kept |
| Currency.FilterCodes | core/model/currency.py:67 | the kept codes are the old codes that are in the kept set |
| Currency.FirstIndexSpec | core/model/currency.py:75-80 | finds the first entry with the code, or none when no entry has it |
| Currency.Currencies.constructor | core/model/currency.py:27-32 | the initial list is USD, EUR and CAD with priorities 1, 2 and 4 |
| Currency.Currencies.Has | core/model/currency.py:35-37 | in a valid registry, a code is known exactly when some entry carries its upper-cased form |
| Currency.Currencies.HasMeansEntry | core/model/currency.py:35-37 | the case a code is written in does not matter |
| Currency.Currencies.Register | core/model/currency.py:44-58 | a known code changes nothing; otherwise the upper-cased code is appended with its name and priority |
| Currency.Currencies.SortCurrencies | core/model/currency.py:106-108 | the list becomes its sorted permutation by priority then code |
| Currency.Currencies.ResetCurrencies | core/model/currency.py:60-69 | only USD, EUR and CAD are left, in sorted order |
| Currency.Currencies.DisplayListReadsBack | core/model/currency.py:71-73 | for codes without a space, a line's code reads back as the text before its first space, so different currencies of a valid registry give different lines |
| Currency.Currencies.Index | core/model/currency.py:75-80 | returns the first position holding the code, or `IndexError` when none does |
| Currency.Currencies.CodeAtIndex | core/model/currency.py:82-86 | returns the code at a position, or `IndexError` for a negative or too-large index |
| Currency.Currencies.IndexOfCodeAtIndex | core/model/currency.py:75-86 | with distinct codes, the index of the code at position `i` is `i` |
| Currency.ChunksSpec | core/model/currency.py:249-253 | the chunks together cover the range, each is at most 30 days long, and they follow one another |
| Currency.ChunksEnds | core/model/currency.py:249-253 | a non-empty range gives chunks that start at its start and end at its end; an empty range gives none |
| Currency.Chunks | core/model/currency.py:249-253 | there are no chunks exactly for an empty range; each chunk is for the currency, within the range, non-empty and at most 30 days long |
| Currency.ChunksContiguous | core/model/currency.py:249-253 | each chunk starts where the previous one ends, and all but the last are exactly 30 days long |
| Currency.FetchCases | core/model/currency.py:235-246 | with no cached range the fetch is from the start date to yesterday; otherwise it is forward after the cached end or backward before the cached start |
| Currency.Plan | core/model/currency.py:228-253 | CAD is never fetched, and only requested currencies are |
| Currency.PlanBeforeToday | core/model/currency.py:236-238 | no fetched chunk reaches today |
| Currency.PlanAgainIsEmpty | core/model/currency.py:254 | once every requested currency's range is recorded up to today, another call plans no fetch |
| Currency.RecordedStep | core/model/currency.py:254 | recording one more currency keeps the recorded ranges consistent |
| Currency.RecordAllSpec | core/model/currency.py:254 | every currency but CAD is recorded with `(start_date, today)`, and other entries are kept |
| Currency.RatesDB.constructor | core/model/currency.py:117-123 | a new database has no fetched ranges |
| Currency.RatesDB.RangeToFetch | core/model/currency.py:235-246 | computes the forward, backward or full fetch range |
| Currency.RatesDB.ChunkRange | core/model/currency.py:249-253 | the loop cuts the range into the chunks `Chunks` describes |
| Currency.PlanAdvance | core/model/currency.py:228-254 | for a currency other than CAD, the rest of the plan is its chunks, computed from the range cached before it is recorded, followed by the plan for the later currencies with `(start_date, today)` recorded for it |
| Currency.RatesDB.EnsureRates | core/model/currency.py:225-254 | a start date not before today changes nothing; otherwise it plans the chunks and records every currency but CAD |
| MainWindows.IndexOf | core/gui/main_window.py:52 | finds the first position of the value, or none exactly when it is absent |
| MainWindows.RemoveAtPositions | core/gui/main_window.py:49-52 | deleting position `k` keeps the views distinct; views after it move up one; the deleted one is gone |
| MainWindows.NavigationStaysInTabs | core/gui/main_window.py:155-169 | next and previous stay within tabs 0 to 5 and skip the account tab when no account is shown |
| MainWindows.NavigationInverse | core/gui/main_window.py:155-169 | previous undoes next and next undoes previous, away from the two ends |
| MainWindows.Editable | core/gui/main_window.py:62 | keeps exactly the transactions that are not budget spawns |
| MainWindows.EditItem | core/gui/main_window.py:57-72 | sheets open the account panel; transaction and account views open the mass-edit panel for more than one editable transaction, the transaction panel for one, and nothing for none; schedule and budget views open their panels |
| MainWindows.Document.constructor | core/gui/main_window.py:142 | the document starts with no filter and with the given shown account and selection |
| MainWindows.MainWindow.constructor | core/gui/main_window.py:16-24 | the window has the six views, index 0 selected, and the net worth view connected |
| MainWindows.MainWindow.ChangeCurrentView | core/gui/main_window.py:32-39 | selecting the current view sends no event; otherwise the old view disconnects, the new one connects and the view is told |
| MainWindows.MainWindow.SetCurrentViewIndex | core/gui/main_window.py:193-199 | an unchanged index does nothing; an out-of-range index raises `IndexError`; otherwise the index and the view change together |
| MainWindows.MainWindow.SelectNextView | core/gui/main_window.py:155-161 | goes to the next tab, skipping the account tab when no account is shown, and stops at the last tab |
| MainWindows.MainWindow.SelectPreviousView | core/gui/main_window.py:163-169 | goes to the previous tab, skipping the account tab when no account is shown, and stops at the first tab |
| MainWindows.MainWindow.SelectTab | core/gui/main_window.py:129-153 | clears the filter and selects the given tab |
| MainWindows.MainWindow.SelectEntryTable | core/gui/main_window.py:141-145 | with no shown account nothing changes; otherwise clears the filter and selects tab 3 |
| MainWindows.MainWindow.CloseView | core/gui/main_window.py:42-55 | an out-of-range index raises `IndexError`; otherwise the tab is removed after a neighbour is selected, the index follows the selected view, and closing the only view raises `ValueError` |
| Preferences.Normalize | qt/preferences.py:19-27 | the result holds no set or tuple at any depth, and non-container values are kept |
| Preferences.NormalizeItems | qt/preferences.py:26 | each item is normalised in place |
| Preferences.NormalizeKeepsPlain | qt/preferences.py:19-27 | a value with no set or tuple is stored unchanged |
| Preferences.NormalizeIdempotent | qt/preferences.py:19-27 | normalising twice is normalising once |
| Preferences.TryInt | qt/preferences.py:41 | a number is read only from non-empty text of an optional sign and digits, and a negative one only with a minus sign |
| Preferences.TryIntOfDecimal | qt/preferences.py:41 | the decimal text of any integer reads back as that integer |
| Preferences.Adjust | qt/preferences.py:29-42 | "true" and "false" become booleans, integer text becomes an integer, other strings and values are kept, and lists are adjusted item by item |
| Preferences.AdjustItems | qt/preferences.py:33 | each item is adjusted in place |
| Preferences.AdjustIdempotent | qt/preferences.py:29-42 | an adjusted value has nothing left to convert, and adjusting twice is adjusting once |
| Preferences.StoredValueReadsBack | qt/preferences.py:19-42 | a value with no set, tuple or convertible string comes back unchanged from storing and reading |
| Preferences.GeometryList | qt/preferences.py:100-106 | the geometry is saved as a five-element list |
| Preferences.Unpacked | qt/preferences.py:111-116 | a true flag maximises; integer or boolean coordinates set that rectangle; any other coordinate raises `TypeError` |
| Preferences.RestoreAction | qt/preferences.py:108-116 | a falsy value, or a list, tuple or set of another length, does nothing; five items are unpacked alike for lists, tuples and sets, so a true flag maximises and integer coordinates set the rectangle; a 5-character string maximises; a value without a length raises `TypeError` |
| Preferences.PreferencesBase.constructor | qt/preferences.py:51-54 | the preferences read the given settings store |
| Preferences.PreferencesBase.GetValue | qt/preferences.py:66-76 | a missing key, or a stored value adjusted to None, gives the default; otherwise the adjusted value |
| Preferences.PreferencesBase.SetValue | qt/preferences.py:97-98 | stores the normalised value under the name and changes no other key |
| Preferences.PreferencesBase.SaveGeometry | qt/preferences.py:100-106 | stores the five-element list, and restoring it afterwards maximises or sets the same rectangle |
| Preferences.PreferencesBase.RestoreGeometry | qt/preferences.py:108-110 | with nothing stored under the name nothing happens, so every action comes from a stored value |
| Preferences.GeometryRoundTrip | qt/preferences.py:100-116 | a saved geometry restores the window as it was saved |
| QtUtil.EscapeAmp | qt/util.py:88-91 | the text grows by one character per `&`, and a text without `&` is unchanged |
| QtUtil.DisplayedEscapeAmp | qt/util.py:88-91 | Qt shows an escaped text exactly as the original |
| QtUtil.PoolLetters | qt/util.py:62 | the available characters are lower-case letters |
| QtUtil.FirstAvailable | qt/util.py:65 | finds the first character whose lower case is available, or none exactly when there is no such character |
| QtUtil.MarkRestores | qt/util.py:68-69 | inserting `&` before position `i` keeps the text around it |
| QtUtil.Accel | qt/util.py:59-71 | there is one new title per action, and a chosen accelerator position lies inside its title |
| QtUtil.AccelNext | qt/util.py:63-71 | one action's turn either marks its first available letter and removes it from the pool, or leaves both alone |
| QtUtil.AccelPoolShrinks | qt/util.py:70 | no letter is ever added back to the pool |
| QtUtil.AccelTitle | qt/util.py:64-71 | each title is kept as it was, or gets `&` before one letter that was available at its turn and is not available afterwards |
| QtUtil.AccelStep | qt/util.py:64-71 | one action's turn either keeps its title or marks a letter it takes out of the pool |
| QtUtil.AccelDistinct | qt/util.py:66-70 | no two actions get the same accelerator letter (case-insensitively) |
| QtUtil.AccelChoice | qt/util.py:65-67 | an action gets no accelerator exactly when none of its letters is available, and otherwise gets the first available one |
| QtUtil.SetAccelKeys | qt/util.py:59-71 | the array ends holding the titles `Accel` computes |

## Left out

- Memory allocation failures (`transaction_copy`, `strclone`, `calloc`) are not modelled. With memory always available, the copies always succeed.
- `inc_date` and `inc_date_skip` have no implementation in the files of this model. They are modelled from the contract in `ccore/recurrence.h`, on the proleptic Gregorian calendar.
- Recurrence.RepeatTypeName: `repeat_type_name` has no implementation in the files of this model. "daily", "weekly", "monthly" and "yearly" follow the type names; "weekday" and "weekday_last" for types 5 and 6 are assumed.
- Recurrence.IncDate: a result before 0001-01-01 is treated as a failure (None). The C code would compute a `time_t` for it.
- Recurrence.SkipSearch: the number of tries is bounded by 4800 (the calendar's 400-year period in months). It is proved that a date is always found within that bound.
- `time_t`, `int` and `unsigned int` overflow (`incsize += every`, `end += rd - vd`) is not modelled. Dates and counts are unbounded integers.
- Schedules.Schedule: `every` must be at least 1 for validity. With `every == 0`, `get_spawns` loops forever whenever the reference date is not past the widened end (or when `inc_date` from it fails), and `update_ref` loops on a deleted start.
- Schedules.UpdatedIdempotent: proved only when the first undeleted date has no global change. When it has one, that change becomes the reference and its own date may lie at or before deletions and changes that are still present, so a second `update_ref` can move the reference again; the C code behaves the same way (`ccore/schedule.c:175-180`).
- Schedules.Schedule.AddGlobalChange: requires the change's date to be a valid date (year 1 or later). The C code accepts any `time_t`.
- The `ref` field of a spawn is recorded as an origin tag (the schedule's reference, or the global change key), not as an address. Other aliasing between C objects is not modelled.
- The iteration order of GLib hash tables is not known. The model lets each table walk take any order, returned as ghost listings, and proves what holds for every order.
- `save_native` loops forever on a schedule that is not alive (`continue` without advancing). The model takes the list of live schedules.
- `oven_cook_txns` is a parameter `cookTxns` of `Cook`. Accounts, entries and running totals are not modelled.
- Ovens.SortByDate: `self._transactions.sort()` orders transactions by their full comparison. The model is a stable sort by date alone: transactions of the same date keep their input order, which can differ from the order the full comparison gives.
- `amount_format` and `g_markup_printf_escaped` are the environment parameters of the save (`Env`). The document is a sequence of text and argument tokens, not bytes.
- `localtime` in `date2str` is the civil date of the day number: time zones are not modelled.
- `fopen` is the `fileOpened` parameter. `fclose` and the `-2` path's open file are not modelled.
- RecurrenceDescriptions.Format: Python `%` formatting is modelled for `%s` and `%%` only, the directives the templates use.
- `tr`, `strftime('%A')` and `date.today()` are parameters.
- `Currencies` class attributes are one `Currencies` object. `_ccore.currency_register` and `currency_global_reset_currencies`, `exponent`, `set_rates_db`, `get_rates_db` and `rates_db` are not modelled.
- `RatesDB` storage and lookup (cache, `_save_fetched_rates`, `get_rate`, `date_range`) are not modelled. `date_range` is the `stored` map of `EnsureRates`. The fetch thread and rate providers are left out; `EnsureRates` returns the planned chunks.
- `Currency.Upper` and `QtUtil.LowerChar` map ASCII letters only, and `isalpha` is ASCII letters only: Unicode case mapping is not modelled.
- Preferences.TryInt: `tryint` is read as an optional sign followed by decimal digits. Python's `int()` also accepts surrounding whitespace and `_` separators, which are not modelled.
- A Python set is modelled as the list `list()` iterates it in.
- `QtUtil.Displayed` is a reference definition of how Qt shows `&` in action texts, not Qt code.
- The main window's views are values; their own behaviour (`connect`, `new_item`, `delete_item`, `navigate_back`, `show_account` and the other methods that only forward to the current view) is not modelled. `OperationAborted` in `edit_item` is not modelled: `EditItem` returns the panel to load.
- Preferences.RestoreAction: a value that is neither a string nor a list, tuple or set (an integer, a boolean, any other object) is taken to have no `len()`. `QRect`'s 32-bit coordinate range is not modelled.
- `get_rect`, `set_rect` and `QRect` are not modelled; `restoreGeometry`'s effect on the widget is the returned `GeometryAction`.
- Qt widgets, signals, `QSettings` persistence (`load`, `save`, `sync`) and logging are not modelled. The settings store is a plain map that returns exactly what was stored; the type changes of `QSettings` serialization are not modelled beyond what `adjust_after_deserialization` undoes.
