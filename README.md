# cal.py — a model of the calendar's data and schedule logic

`cal.py` is a small Flask calendar. It keeps three JSON files: tasks,
birthdays keyed by `DD.MM`, and day marks keyed by `DD.MM.YYYY`. It reads
an iCalendar feed and expands its recurring events over a window that runs
from two months before now to one year after. A walk that reaches the end
of the feed replaces the cache. A non-empty cached list is served while the
time since it was filled, taken modulo whole days, is under an hour; an
empty one is never served, so a feed with no events in the window is
fetched again on every load. A background loop recomputes the alerts for tasks, events and
birthdays, and the index page shows one week of the calendar.

This project models the following in Dafny:

- loading the stores:
  - a birthday or mark value stored as a single string reads as a one-element list;
  - each task without an id gets its one-based position as its id;
- the walk over the feed's components:
  - the window filter;
  - the rendering of start and end;
  - recurrence expansion, with its fallback to a single occurrence;
  - the way a component that raises ends the walk;
- the schedule cache and its time-to-live test;
- one pass of the notification scanner;
- the week view;
- every request handler that changes the stores, the notification list or the cache.

The modules:

| module | contents |
|---|---|
| `Dates` | proleptic Gregorian ordinals, as in `date.toordinal`; civil dates; `relativedelta` month shifts |
| `Entries` | string-or-list values and the operations on them |
| `Events` | feed expansion |
| `Schedule` | the cache decisions |
| `Tasks` | the task list |
| `Alerts` | the scanner |
| `Week` | the page's week and task order |
| `App` | the application state as a class, and the handlers as methods |

Modelling choices:

- **Dates.**
  - A day is an ordinal and an instant is a count of seconds.
  - A rendered stamp `DD.MM.YYYY HH:MM` is the day plus the minute of the day it names, so its seconds are dropped.
  - Birthday keys are `(day, month)` pairs and mark keys are civil dates.
  - Parsing a date from a form is abstracted as a `DateField`: missing, not in the expected shape, or the numbers it is written with. Those numbers need not name a real date; the handler answers 400 for such a date.
- **Store values.** A value that is a string or a list is `Entry = Single | Many`.
- **External inputs are parameters.**
  - The feed is a parameter. `None` stands for a failed download or parse.
  - The recurrence engine (`dateutil.rrule`) is a function parameter that yields instants or fails.
  - The clock is the parameter `now`.

## Model

| member | source | states |
|---|---|---|
| Dates.Valid | cal.py:382 | a civil date is real when its month is 1..12 and its day lies within that month of that year |
| Dates.ToOrdinal | cal.py:190 | the proleptic Gregorian ordinal of a real date, counted from 1 January of year 1 as day 1, so that date differences are ordinal differences |
| Dates.FromOrdinal | cal.py:286 | the civil date of an ordinal, found by searching years then months; `FromOrdinalInverse` proves it real and inverse to `ToOrdinal` |
| Dates.DayMonthOf | cal.py:216 | the year-free `DD.MM` key of a day: the day and month of its civil date |
| Dates.Weekday | cal.py:258 | `weekday()` lies in 0..6 |
| Dates.FromOrdinalInverse | cal.py:214-216 | every ordinal has a valid civil date that maps back to it |
| Dates.FromToOrdinal | cal.py:274 | converting a valid civil date to an ordinal and back gives the same date |
| Dates.ToOrdinalInjective | cal.py:286 | distinct valid dates have distinct ordinals, so distinct days have distinct `DD.MM.YYYY` keys |
| Dates.ShiftMonths | cal.py:86-87 | `relativedelta(months=k)` moves exactly k months and clamps the day to the new month's length, so the result is a valid date |
| Dates.ShiftInstant | cal.py:86-87 | shifting by months keeps the time of day |
| Dates.ShiftForwardIsLater | cal.py:87 | a forward shift of one or more months lands on a later day |
| Dates.ShiftBackIsEarlier | cal.py:86 | a backward shift of one or more months lands on an earlier day |
| Entries.View | cal.py:219-220 | the store seen as lists: a single stored string reads as a one-name list, keys unchanged |
| Entries.ValuesAt | cal.py:217-220 | the list stored under a key, and the empty list when the key is absent |
| Entries.Normalize | cal.py:40-55 | the same keys, and every value a list |
| Entries.NormalizeKeepsView | cal.py:40-55 | normalising changes no key's list of values, and normalising twice is normalising once |
| Entries.LoadStore | cal.py:40-55 | the loop over the stored items computes `Normalize` |
| Entries.Compact | cal.py:405-406 | a one-element list is stored as its element; other lists stay lists; the values are kept |
| Entries.CompactRoundTrip | cal.py:419-422 | storing a list compacted changes the view at that key only, and to exactly that list |
| Entries.Add | cal.py:387-393 | the key is added if new, and its values become the old ones followed by the new value |
| Entries.DeleteFirst | cal.py:402-408 | a missing key changes nothing; with two or more values the first is dropped; with one or none the key goes |
| Entries.DeleteAfterAddStored | cal.py:387-389 | with the value already stored, adding it and then deleting it removes the first copy, so the list ends with the value and the rest keep their order |
| Entries.RemoveFirstAppend | cal.py:389 | removing from a list with a value appended removes from the list and keeps the appended value last |
| Entries.RemoveFirst | cal.py:418 | `list.remove`: the list without its first element equal to the value, one shorter |
| Entries.RemoveFirstMultiset | cal.py:418 | `list.remove` takes away exactly one copy of the value |
| Entries.RemoveFirstSplits | cal.py:418 | the copy taken is the first one, and the rest keep their order |
| Entries.DeleteValue | cal.py:415-425 | no change unless the value is stored; the key goes when its last value goes; otherwise one copy is removed |
| Entries.DeleteAfterAdd | cal.py:375-427 | for a value not already stored under the key, adding it and then deleting it restores the view: the key goes again when its stored list was empty or absent, and the stored list comes back otherwise |
| Events.AsInstant | cal.py:125 | a date used as an rrule anchor stands for an instant on that date |
| Events.StampOf | cal.py:113 | a rendered stamp names the instant's day and a minute of that day |
| Events.StampTruncates | cal.py:113 | a stamp shows its instant to the minute, with the seconds truncated |
| Events.Render | cal.py:112-120 | a value renders with its own day, and a plain date renders at 00:00 |
| Events.OutsideWindow | cal.py:109 | an event is skipped when its start day is after the window's last day or its end day before the window's first |
| Events.PlainOccurrence | cal.py:146-164 | the one non-recurring record an event gives: its rendered bounds, summary (default `Без названия`), description and location (default empty) |
| Events.Instance | cal.py:128-145 | the record of one rule occurrence: starts at it, ends one event duration later when both bounds carry a time and at the event's own end otherwise, marked recurring |
| Events.Instances | cal.py:128-145 | one occurrence per instant of the rule, in the engine's order |
| Events.ExpandEvent | cal.py:92-164 | one event's records: `None` exactly when DTSTART or DTEND is missing (the read raises), and at most one record when it has no rule; nothing when outside the window, the rule's instances, or the plain record when the rule fails |
| Events.ExpandComponent | cal.py:91-92 | a component that is not a VEVENT gives no records; a VEVENT gives its event's expansion |
| Events.ExpandAll | cal.py:91-171 | the walk over components in order, appending each one's records and stopping, incomplete, at the first one that raises |
| Events.OutsideWindowGivesNothing | cal.py:109-110 | an event lying wholly after the window's last day or before its first gives nothing, even with a rule |
| Events.PlainEventGivesOne | cal.py:146-164 | an event in the window with no rule, or whose rule fails, gives one non-recurring occurrence with its own start, end, summary, description and location |
| Events.RuleEventGivesInstances | cal.py:122-145 | an event whose rule expands gives one recurring occurrence per instant, with the event's text. The end is the instant plus the event's duration when both bounds have a time, and the event's own end otherwise |
| Events.InstanceKeepsDuration | cal.py:131-134 | for an event lasting whole minutes, each instance's stamps are exactly the event's duration apart |
| Events.StopIsFinal | cal.py:97-103 | once a VEVENT without DTSTART or DTEND stops the walk, later components add nothing |
| Events.ExpandCons | cal.py:91-164 | the walk processes components in feed order and appends each one's occurrences |
| Events.CompleteIff | cal.py:91-171 | the walk reaches the end exactly when no VEVENT lacks DTSTART or DTEND |
| Events.OccurrenceHasSource | cal.py:138-164 | every occurrence gathered comes from one component of the feed |
| Events.RecurringHasRule | cal.py:122-145 | a recurring occurrence comes from a VEVENT with a rule the engine expanded |
| Events.ExpandFeed | cal.py:91-164 | the loop's result equals the walk's result, and the loop completes exactly when every component expands |
| Schedule.SecondsComponent | cal.py:76 | `timedelta.seconds` lies in [0, 86400), equals the elapsed time when that is under a day, and differs from it by whole days |
| Schedule.CacheHit | cal.py:76 | the cache serves when its list is non-empty, it has a time stamp, and the seconds part of the elapsed time is below the one-hour TTL |
| Schedule.WindowAround | cal.py:85-87 | the window's first day is before today and its last day is after, with the same time of day at both ends |
| Schedule.TodayIsInWindow | cal.py:109-110 | an event spanning today is never filtered out |
| Schedule.FreshCacheHits | cal.py:76-77 | a non-empty cache stamped less than an hour ago is served |
| Schedule.WholeDaysAreIgnored | cal.py:76-77 | a cache stamped whole days and less than an hour ago is served, however old it is |
| Schedule.StaleCacheMisses | cal.py:76 | a cache stamped between an hour and a day ago is refetched |
| Schedule.ClockBackMisses | cal.py:76 | a clock set back by up to 23 hours makes the cache miss |
| Schedule.EmptyCacheMisses | cal.py:76 | an empty list is never served, so a fetch that found nothing is repeated |
| Schedule.InvalidatedCacheMisses | cal.py:488-493 | with no time stamp the cache always misses |
| Schedule.FailedFetchYieldsNothing | cal.py:170-175 | a failed fetch or parse yields no occurrences and does not complete |
| Schedule.Fetch | cal.py:79-171 | a failed download or parse gives nothing and an incomplete walk; otherwise the walk over the feed's components in the window around `now` |
| Schedule.FetchFeed | cal.py:79-175 | the fetch, then the walk over the window around `now` |
| Schedule.Served | cal.py:76-77 | on a hit the cached, non-empty list; on a miss with a failed feed, nothing |
| Schedule.CacheAfter | cal.py:76-77 | the cache after a load: unchanged on a hit or when the walk did not complete, otherwise the gathered list stamped `now` (lines 167-168) |
| Schedule.LoadAgainServesSame | cal.py:76-77 | after a load that served a non-empty list from the cache or from a completed walk, a second load at the same instant hits and serves the same list, whatever the feed holds then |
| Schedule.IncompleteLoadKeepsCache | cal.py:167-175 | a failed fetch or a walk cut short leaves the cache and its stamp as they were |
| Tasks.IdOrZero | cal.py:345 | a task's id, or 0 when it has none |
| Tasks.Backfilled | cal.py:59-61 | the same number of tasks; each has an id; stored ids are kept; a missing id becomes the task's one-based position |
| Tasks.BackfillIds | cal.py:59-61 | the loop computes `Backfilled`, and every task leaves with an id |
| Tasks.BackfillKeepsRecords | cal.py:59-61 | backfilling changes no description, deadline, completion state or stored id |
| Tasks.BackfillCanDuplicate | cal.py:59-61 | a task without an id at position 1, followed by a task stored with id 1, gives two tasks with id 1 |
| Tasks.MaxId | cal.py:345 | the largest id, counting a missing id as 0, and attained by some task |
| Tasks.NextId | cal.py:345 | 1 for an empty list, otherwise one more than the largest id; it exceeds every id, so no task already carries it |
| Tasks.Added | cal.py:346-351 | the old list followed by one open task with the next id, the description and the deadline |
| Tasks.Toggled | cal.py:360-363 | the list after `toggle_task`, as long as the old one: the first task with the id flips its completed flag |
| Tasks.ToggledAt | cal.py:360-363 | only the first task with the id flips its completion state |
| Tasks.ToggledAbsent | cal.py:360-363 | with no task carrying the id, nothing changes |
| Tasks.ToggleTwice | cal.py:356-366 | toggling twice restores the list |
| Tasks.ToggleFirst | cal.py:360-363 | the loop with `break` computes `Toggled` |
| Tasks.Deleted | cal.py:371 | the list after `delete_task`, no longer than the old one: the tasks whose id differs, in order |
| Tasks.DeletedMembers | cal.py:371 | a task survives exactly when it does not carry the id |
| Tasks.DeletedAbsent | cal.py:371 | with no task carrying the id, nothing changes |
| Tasks.DeletedAppend | cal.py:371 | the filter keeps the list's order |
| Tasks.DeleteAfterAdd | cal.py:345-371 | deleting the id just given to an added task restores the list |
| Alerts.NatText | cal.py:194 | a day count is written as one or more decimal digits |
| Alerts.NatTextReadsBack | cal.py:194 | the digits read back as the count, so different counts give different texts |
| Alerts.Message | cal.py:192-234 | the text of an alert: the task text with its day count, `Завтра событие:` with the summary, and a birthday worded as today at offset 0 and with its day count otherwise |
| Alerts.TaskMessageCarriesCount | cal.py:192-196 | two alerts for one task with different day counts have different texts |
| Alerts.BirthdayMessageInTwoDays | cal.py:229-234 | a birthday two days on is worded "Через 2 дн. …" with the name, and its type is birthday |
| Alerts.BirthdayMessageToday | cal.py:223-228 | a birthday today is worded as today, with the name and no count |
| Alerts.DueSoon | cal.py:187-191 | a task alerts when it is open, its deadline parses, and the deadline is 0 to 3 days from today |
| Alerts.TaskAlertsOf | cal.py:187-198 | a task gives at most one alert, and gives one exactly when it is open and due in 0 to 3 days |
| Alerts.EventAlertsOf | cal.py:203-212 | an occurrence gives one alert exactly when it starts tomorrow |
| Alerts.NamesAlerts | cal.py:222-234 | one birthday alert per name, in stored order |
| Alerts.TaskAlerts | cal.py:186-198 | the task alerts in task order, one per task that is due soon |
| Alerts.EventAlerts | cal.py:200-212 | the event alerts in list order, one per occurrence that starts tomorrow |
| Alerts.WeekKeys | cal.py:214-216 | the `DD.MM` keys of today and the six days after it |
| Alerts.BirthdayAlertsOn | cal.py:217-234 | the alerts for the names stored under the key of day `i`, in stored order, each `i` days ahead |
| Alerts.BirthdayAlerts | cal.py:214-234 | the birthday alerts for offsets 0 to n - 1, offset by offset |
| Alerts.ScanAlerts | cal.py:184-236 | the list one pass builds: task alerts, then event alerts for tomorrow, then birthday alerts for the week |
| Alerts.TaskAlertsAppend | cal.py:186-198 | task alerts follow the task list's order |
| Alerts.TaskAlertsIff | cal.py:186-198 | an alert is a task alert exactly when some open task is due in 0 to 3 days and the alert carries its description, day count and deadline |
| Alerts.TaskAlertsAreNear | cal.py:189-191 | every task alert is dated at a task's deadline, 0 to 3 days from today |
| Alerts.TaskDueInTwoDays | cal.py:186-198 | an open task due in two days gives exactly one alert saying 2; a completed one gives none |
| Alerts.EventAlertsIff | cal.py:200-212 | an alert is an event alert exactly when some occurrence starts tomorrow and the alert carries its summary |
| Alerts.BirthdayAlertsIff | cal.py:214-234 | an alert is a birthday alert exactly when it belongs to one of the scanned offsets 0 to n - 1 |
| Alerts.BirthdayAlertsAscend | cal.py:214-234 | the offsets are scanned in ascending order |
| Alerts.WeekKeysFromMarch23 | cal.py:214-216 | from 23 March the seven keys are 23.03 to 29.03 in any year |
| Alerts.MarchKey | cal.py:215-216 | example check: the day `i` days after 23 March, `i` below 7, has the key `(23 + i).03` |
| Alerts.MarchBirthday | cal.py:214-234 | example check: over the keys 23.03 to 29.03 with one name under 25.03, the pass gives exactly one alert, two days ahead |
| Alerts.BirthdayInTwoDays | cal.py:214-234 | on 23 March, a name stored under 25.03 gives one alert "in 2 days", dated the 25th |
| Alerts.ScanTasks | cal.py:186-198 | the loop over the tasks computes `TaskAlerts` |
| Alerts.ScanEvents | cal.py:200-212 | the loop over the occurrences computes `EventAlerts` for tomorrow |
| Alerts.ScanBirthdays | cal.py:214-234 | the loop over the seven days computes the birthday alerts for the week's keys |
| Alerts.AlertNames | cal.py:222-234 | the loop over one key's names computes `NamesAlerts` |
| Alerts.Scan | cal.py:184-234 | one pass gives the task alerts, then the event alerts, then the birthday alerts |
| Week.WeekStart | cal.py:258 | the shown week starts on a Monday, and `today + 7 * offset` lies in its seven days |
| Week.NextWeekIsSevenDaysOn | cal.py:258 | moving the offset by one week moves the Monday by seven days |
| Week.CellWeekday | cal.py:301 | the i-th day from a Monday is weekday i |
| Week.EventsOn | cal.py:265-272 | the occurrences whose start day is the given day, in list order |
| Week.CellAt | cal.py:261-305 | the cell of day `start + i`: the day, its name, its events, the birthdays under its `DD.MM` key and the marks under its date |
| Week.ListedAt | cal.py:276-296 | one listed entry per stored value, in stored order, each carrying its key |
| Week.EventsOnIff | cal.py:265-272 | an occurrence is listed on a day exactly when it starts on that day |
| Week.EventsOnAppend | cal.py:265-272 | listing keeps the occurrences' order |
| Week.OccurrenceInOneCell | cal.py:261-272 | an occurrence appears in the cell of its start day and in no other |
| Week.CollectEvents | cal.py:263-272 | the loop over the occurrences computes `EventsOn` |
| Week.CollectListed | cal.py:274-296 | the loop over one key's values computes `ListedAt` |
| Week.BuildCell | cal.py:262-305 | the loop body builds the cell of day `start + i` |
| Week.BuildWeek | cal.py:259-305 | seven cells, cell i being `CellAt` for the i-th day of the shown week |
| Week.CellsAreTheWeek | cal.py:261-301 | cell i is dated at the Monday plus i, falls on weekday i, and carries that weekday's name |
| Week.CellListsItsKeys | cal.py:274-296 | a birthday is listed exactly when its `DD.MM` key matches the cell's day, in any year; a mark exactly when its full date matches |
| Week.DeadlineKey | cal.py:253 | the sort key of a task: its deadline day, and 0 when it does not parse (the sort is used only when every open deadline parses) |
| Week.InsertByDeadline | cal.py:253 | insertion adds exactly the one task |
| Week.InsertKeepsSorted | cal.py:253 | inserting into a list sorted by deadline keeps it sorted |
| Week.SortByDeadline | cal.py:253 | the result is a permutation of the input, sorted by deadline |
| Week.Open | cal.py:249 | the open tasks, and only those |
| Week.Done | cal.py:250 | the completed tasks, and only those |
| Week.OpenAppend | cal.py:249 | the open tasks keep their stored order |
| Week.DoneAppend | cal.py:250 | the completed tasks keep their stored order |
| Week.ShownTasks | cal.py:249-255 | the page's task list: open tasks, sorted by deadline when every deadline parses and in stored order otherwise, then the completed ones (line 308) |
| Week.SplitKeepsTasks | cal.py:249-250 | the two lists together are the stored list |
| Week.ShownTasksOrder | cal.py:249-255 | the shown list is a permutation of the stored one, with no completed task before an open one. When every open deadline parses, the open tasks come first in deadline order; otherwise the open tasks stay in stored order. The completed tasks follow in stored order |
| Week.OpenBeforeDone | cal.py:308 | open tasks, then completed ones |
| App.ValidDayMonth | cal.py:382 | a `DD.MM` key is accepted when it names a day of that month in the leap year 2000 |
| App.BirthdayDateParses | cal.py:380-384 | the birthday form's date is present, in shape and a real day and month |
| App.MarkDateParses | cal.py:434-438 | the mark form's date is present, in shape and a real calendar date |
| App.Saved | cal.py:26-71 | after load and save, the tasks are backfilled and the other stores hold the same lists, all as lists |
| App.CalendarApp.constructor | cal.py:21-24 | the files as found, no notifications, an empty cache |
| App.CalendarApp.LoadData | cal.py:26-63 | returns `Saved` of the files, with every task carrying an id |
| App.CalendarApp.SaveData | cal.py:65-71 | the files hold exactly the data |
| App.CalendarApp.LoadSchedule | cal.py:73-175 | returns `Served`. A hit leaves the cache alone. A miss whose walk completes stores the list stamped with `now`. A failed fetch or a stopped walk leaves the cache as it was. The new cache is `CacheAfter` of the old one |
| App.CalendarApp.RefreshSchedule | cal.py:488-493 | the cache is empty, unstamped, and misses at any time |
| App.CalendarApp.ClearNotifications | cal.py:482-486 | the notification list is empty |
| App.CalendarApp.CheckUpcomingEventsOnce | cal.py:180-236 | the notification list becomes the scan of the loaded stores and of the served schedule for today, and the cache changes as one load at `now` changes it |
| App.CalendarApp.Index | cal.py:243-314 | the page shows the tasks in display order, the seven cells of the offset week from the served schedule, today, the offset, the current notifications and the loaded stores; the cache changes as one load at `now` changes it |
| App.CalendarApp.AddTask | cal.py:333-354 | a missing field changes nothing; a bad date is a 400 with the message; otherwise the task is appended and saved |
| App.CalendarApp.ToggleTask | cal.py:356-366 | the loaded list is saved with the first matching task flipped |
| App.CalendarApp.DeleteTask | cal.py:368-373 | the loaded list is saved without the tasks carrying the id |
| App.CalendarApp.AddBirthday | cal.py:375-396 | a missing field changes nothing; a date that is not a real `DD.MM` (checked against leap year 2000) is a 400; otherwise the name is appended under the key and saved |
| App.CalendarApp.DeleteBirthday | cal.py:398-410 | with the key stored, its first name is dropped and the stores saved; otherwise nothing is written |
| App.CalendarApp.DeleteSpecificBirthday | cal.py:412-427 | with the key stored, the first copy of the name is dropped (if present) and the stores saved; otherwise nothing is written |
| App.CalendarApp.AddMark | cal.py:429-450 | as `AddBirthday`, keyed by the full date, with the full-date message; a date that is not a real calendar date is a 400 |
| App.BirthdayKeysChecked | cal.py:382 | `29.02` is accepted, as 2000 is a leap year; `31.02` and `01.13` are refused |
| App.CalendarApp.DeleteMark | cal.py:452-463 | as `DeleteBirthday`, for marks |
| App.CalendarApp.DeleteSpecificMark | cal.py:465-480 | as `DeleteSpecificBirthday`, for marks |

## Left out

- The file, network and iCalendar parsing I/O are not modelled.
  - Each file is a field holding what it decodes to; a missing file reads as empty.
  - The feed is a parameter.
  - JSON syntax errors, `json.dump` formatting and the download timeout are not modelled.
- `dateutil.rrule` is a function parameter.
  - The model does not check that its instants fall inside the window.
  - An exception raised while the occurrences are being rendered counts as the rule failing. In the source, the instances appended before the exception stay in the list and the fallback occurrence follows them. The model drops those partial instances and gives only the fallback.
- Flask routing, the session and the `prev_week`/`next_week`/`current_week` handlers are left out. They only set the week offset, which `Index` takes as a parameter.
- The background thread, its hourly sleep, and races between the thread and the handlers are left out. `CheckUpcomingEventsOnce` is one iteration of the loop.
- An exception raised mid-pass in the scanner (for example from a malformed store) is not modelled. The model assumes every pass finishes.
- The text formats are not modelled:
  - `strftime` and `strptime` text;
  - the alert's date string;
  - keys that are not zero-padded;
  - whitespace in a date.
  A parsed date is an ordinal or a `(day, month)` pair. A deadline that does not parse is `None`.
- Python's date range of years 1 to 9999 is not modelled: the calendar extends to all integers, so `OverflowError` cannot occur. Time zones, sub-second precision and separate clock reads are also left out: one `now` stands for the three reads in `load_schedule` and for the `today` read of the scanner (cal.py line 183) and of the page (cal.py line 257).
- `print`, `traceback`, `create_template` and the HTML template are left out.
- Week.SortByDeadline: the contract states a sorted permutation, not the stability of Python's `list.sort`. The insertion sort is stable, but no contract says so.
- Week.ShownTasksOrder: for the same reason it does not state that open tasks with equal deadlines keep their stored order, which the stable sort gives in the source.
