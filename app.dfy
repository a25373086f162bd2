/**
 * The application's state and its request handlers. The three JSON files
 * are fields holding what each file decodes to (a missing file reads as
 * empty); the notification list and the schedule cache are the module's
 * globals. Every handler loads the files afresh, changes the loaded copy
 * and, when it saves, writes all three files back.
 */
module App {
  import opened Wrappers
  import opened Dates
  import opened Entries
  import opened Events
  import opened Schedule
  import opened Tasks
  import opened Alerts
  import opened Week

  /**
   * A date field of a form as the handler reads it: missing or empty,
   * present but not in the expected `DD.MM` or `DD.MM.YYYY` shape, or the
   * numbers it is written with. Those numbers need not name a real date
   * (`31.02`); the handler's `strptime` call refuses such a key.
   */
  datatype DateField<K> = NoDate | BadDate | DateOf(key: K)

  /** A `DD.MM` key `strptime` accepts once `.2000` is appended: a day of that month in a leap year. */
  predicate ValidDayMonth(k: DayMonth) {
    1 <= k.month <= 12 && 1 <= k.day <= DaysInMonth(2000, k.month)
  }

  /** The birthday form's date parses to a real day and month. */
  predicate BirthdayDateParses(date: DateField<DayMonth>) {
    date.DateOf? && ValidDayMonth(date.key)
  }

  /** `29.02` is accepted, since 2000 is a leap year; `31.02` and `01.13` are refused. */
  lemma BirthdayKeysChecked()
    ensures ValidDayMonth(DayMonth(29, 2))
    ensures !ValidDayMonth(DayMonth(31, 2)) && !ValidDayMonth(DayMonth(1, 13))
  {
  }

  /** The mark form's date parses to a real calendar date. */
  predicate MarkDateParses(date: DateField<Civil>) {
    date.DateOf? && Valid(date.key)
  }

  /** A handler's answer: back to the page, or a 400 with its message. */
  datatype Response = Redirect | BadRequest(message: string)

  const BadFullDate: string := "Неверный формат даты. Используйте ДД.ММ.ГГГГ"
  const BadDayMonth: string := "Неверный формат даты. Используйте ДД.ММ"

  /** The three stores as `load_data` returns them. */
  datatype Data = Data(tasks: seq<Task>, birthdays: map<DayMonth, Entry<string>>, marks: map<Civil, Entry<string>>)

  /** What the page is rendered from. */
  datatype Page = Page(
    tasks: seq<Task>,
    week: seq<DayCell>,
    today: Day,
    weekOffset: int,
    notifications: seq<Alert>,
    birthdays: map<DayMonth, Entry<string>>,
    marks: map<Civil, Entry<string>>)

  /**
   * The store shape after a handler's load-then-save: the tasks file with
   * ids backfilled, the other two with every value a list.
   */
  function Saved(d: Data): (r: Data)
    ensures r.tasks == Backfilled(d.tasks)
    ensures View(r.birthdays) == View(d.birthdays) && View(r.marks) == View(d.marks)
    ensures forall k :: k in r.birthdays ==> r.birthdays[k].Many?
    ensures forall k :: k in r.marks ==> r.marks[k].Many?
  {
    NormalizeKeepsView(d.birthdays);
    NormalizeKeepsView(d.marks);
    Data(Backfilled(d.tasks), Normalize(d.birthdays), Normalize(d.marks))
  }

  class CalendarApp {
    var tasksFile: seq<Task>
    var birthdaysFile: map<DayMonth, Entry<string>>
    var marksFile: map<Civil, Entry<string>>
    var notifications: seq<Alert>
    var cachedEvents: seq<Occurrence>
    var lastCacheUpdate: Option<Instant>

    /** Start-up: the files as found, no notifications and an empty cache. */
    constructor (tasks: seq<Task>, birthdays: map<DayMonth, Entry<string>>, marks: map<Civil, Entry<string>>)
      ensures tasksFile == tasks && birthdaysFile == birthdays && marksFile == marks
      ensures notifications == [] && cachedEvents == [] && lastCacheUpdate == None
    {
      tasksFile := tasks;
      birthdaysFile := birthdays;
      marksFile := marks;
      notifications := [];
      cachedEvents := [];
      lastCacheUpdate := None;
    }

    /** The files' contents, as one value. */
    function Files(): Data
      reads this
    {
      Data(tasksFile, birthdaysFile, marksFile)
    }

    /** `load_data`: reads the three files, lists for every value, ids for every task. */
    method LoadData() returns (d: Data)
      ensures d == Saved(Files())
      ensures forall i :: 0 <= i < |d.tasks| ==> d.tasks[i].id.Some?
    {
      var tasks := BackfillIds(tasksFile);
      var birthdays := LoadStore(birthdaysFile);
      var marks := LoadStore(marksFile);
      d := Data(tasks, birthdays, marks);
    }

    /** `save_data`: writes the three files. */
    method SaveData(d: Data)
      modifies this`tasksFile, this`birthdaysFile, this`marksFile
      ensures Files() == d
    {
      tasksFile := d.tasks;
      birthdaysFile := d.birthdays;
      marksFile := d.marks;
    }

    /**
     * `load_schedule`: a hit serves the cached list untouched; otherwise
     * the feed is fetched and walked. A walk that reaches the end replaces
     * the cache and stamps it with `now`; a failed fetch or a walk cut
     * short leaves the cache as it was and returns what was gathered.
     */
    method LoadSchedule(now: Instant, feed: Option<seq<Component>>, engine: RuleEngine)
      returns (events: seq<Occurrence>)
      modifies this`cachedEvents, this`lastCacheUpdate
      ensures events == Served(old(cachedEvents), old(lastCacheUpdate), now, feed, engine)
      ensures CacheHit(old(cachedEvents), old(lastCacheUpdate), now) ==>
        cachedEvents == old(cachedEvents) && lastCacheUpdate == old(lastCacheUpdate)
      ensures !CacheHit(old(cachedEvents), old(lastCacheUpdate), now) && Fetch(feed, now, engine).complete ==>
        cachedEvents == events && lastCacheUpdate == Some(now)
      ensures !CacheHit(old(cachedEvents), old(lastCacheUpdate), now) && !Fetch(feed, now, engine).complete ==>
        cachedEvents == old(cachedEvents) && lastCacheUpdate == old(lastCacheUpdate)
      ensures Cache(cachedEvents, lastCacheUpdate) == CacheAfter(old(cachedEvents), old(lastCacheUpdate), now, feed, engine)
    {
      if CacheHit(cachedEvents, lastCacheUpdate, now) {
        return cachedEvents;
      }
      var complete;
      events, complete := FetchFeed(feed, now, engine);
      assert events == Served(cachedEvents, lastCacheUpdate, now, feed, engine);
      if complete {
        cachedEvents := events;
        lastCacheUpdate := Some(now);
      }
    }

    /** `refresh_schedule`: drops the cache, so the next load fetches. */
    method RefreshSchedule()
      modifies this`cachedEvents, this`lastCacheUpdate
      ensures cachedEvents == [] && lastCacheUpdate == None
      ensures forall now: Instant :: !CacheHit(cachedEvents, lastCacheUpdate, now)
    {
      cachedEvents := [];
      lastCacheUpdate := None;
    }

    /** `clear_notifications`: empties the notification list. */
    method ClearNotifications()
      modifies this`notifications
      ensures notifications == []
    {
      notifications := [];
    }

    /**
     * One pass of the scanner's loop: load the files and the schedule,
     * compute the alerts for today and replace the notification list.
     */
    method CheckUpcomingEventsOnce(now: Instant, feed: Option<seq<Component>>, engine: RuleEngine)
      modifies this`notifications, this`cachedEvents, this`lastCacheUpdate
      ensures var d := Saved(Files());
        var events := Served(old(cachedEvents), old(lastCacheUpdate), now, feed, engine);
        notifications == ScanAlerts(d.tasks, d.birthdays, events, DayOf(now))
      ensures Cache(cachedEvents, lastCacheUpdate) == CacheAfter(old(cachedEvents), old(lastCacheUpdate), now, feed, engine)
    {
      var d := LoadData();
      var events := LoadSchedule(now, feed, engine);
      var alerts := Scan(d.tasks, d.birthdays, events, DayOf(now));
      notifications := alerts;
    }

    /**
     * `index`: loads the files and the schedule and builds the page: the
     * tasks in display order, the week `weekOffset` weeks from the current
     * one, and the current notifications.
     */
    method Index(now: Instant, weekOffset: int, feed: Option<seq<Component>>, engine: RuleEngine)
      returns (page: Page)
      modifies this`cachedEvents, this`lastCacheUpdate
      ensures var d := Saved(Files());
        page.tasks == ShownTasks(d.tasks) && page.birthdays == d.birthdays && page.marks == d.marks
      ensures page.today == DayOf(now) && page.weekOffset == weekOffset && page.notifications == notifications
      ensures var d := Saved(Files());
        var events := Served(old(cachedEvents), old(lastCacheUpdate), now, feed, engine);
        |page.week| == 7 &&
        forall i :: 0 <= i < 7 ==> page.week[i] == CellAt(events, d.birthdays, d.marks, WeekStart(DayOf(now), weekOffset), i)
      ensures Cache(cachedEvents, lastCacheUpdate) == CacheAfter(old(cachedEvents), old(lastCacheUpdate), now, feed, engine)
    {
      var d := LoadData();
      var events := LoadSchedule(now, feed, engine);
      var week := BuildWeek(events, d.birthdays, d.marks, DayOf(now), weekOffset);
      page := Page(ShownTasks(d.tasks), week, DayOf(now), weekOffset, notifications, d.birthdays, d.marks);
    }

    // ------------------------------------------------------------ tasks

    /**
     * `add_task`: with both fields given and a valid date, appends an open
     * task with the next free id and saves; a bad date is refused with a
     * 400; a missing field changes nothing.
     */
    method AddTask(description: string, deadline: DateField<Day>) returns (r: Response)
      modifies this`tasksFile, this`birthdaysFile, this`marksFile
      ensures description == [] || deadline.NoDate? ==> r == Redirect && Files() == old(Files())
      ensures description != [] && deadline.BadDate? ==> r == BadRequest(BadFullDate) && Files() == old(Files())
      ensures description != [] && deadline.DateOf? ==>
        var d := Saved(old(Files()));
        r == Redirect && Files() == d.(tasks := Added(d.tasks, description, deadline.key))
    {
      if description != [] && !deadline.NoDate? {
        if deadline.BadDate? {
          return BadRequest(BadFullDate);
        }
        var d := LoadData();
        var tasks := d.tasks + [Task(Some(NextId(d.tasks)), description, Some(deadline.key), false)];
        SaveData(d.(tasks := tasks));
      }
      r := Redirect;
    }

    /** `toggle_task`: flips the first task with the id and saves. */
    method ToggleTask(id: int) returns (r: Response)
      modifies this`tasksFile, this`birthdaysFile, this`marksFile
      ensures var d := Saved(old(Files()));
        r == Redirect && Files() == d.(tasks := Toggled(d.tasks, id))
    {
      var d := LoadData();
      var tasks := ToggleFirst(d.tasks, id);
      SaveData(d.(tasks := tasks));
      r := Redirect;
    }

    /** `delete_task`: drops every task with the id and saves. */
    method DeleteTask(id: int) returns (r: Response)
      modifies this`tasksFile, this`birthdaysFile, this`marksFile
      ensures var d := Saved(old(Files()));
        r == Redirect && Files() == d.(tasks := Deleted(d.tasks, id))
    {
      var d := LoadData();
      SaveData(d.(tasks := Deleted(d.tasks, id)));
      r := Redirect;
    }

    // ------------------------------------------------------------ birthdays

    /**
     * `add_birthday`: with both fields given and a valid `DD.MM` date,
     * adds the name after those already stored under the key and saves.
     */
    method AddBirthday(date: DateField<DayMonth>, name: string) returns (r: Response)
      modifies this`tasksFile, this`birthdaysFile, this`marksFile
      ensures date.NoDate? || name == [] ==> r == Redirect && Files() == old(Files())
      ensures !date.NoDate? && !BirthdayDateParses(date) && name != [] ==>
        r == BadRequest(BadDayMonth) && Files() == old(Files())
      ensures BirthdayDateParses(date) && name != [] ==>
        var d := Saved(old(Files()));
        r == Redirect && Files() == d.(birthdays := Add(d.birthdays, date.key, name))
    {
      if !date.NoDate? && name != [] {
        if !BirthdayDateParses(date) {
          return BadRequest(BadDayMonth);
        }
        var d := LoadData();
        SaveData(d.(birthdays := Add(d.birthdays, date.key, name)));
      }
      r := Redirect;
    }

    /**
     * `delete_birthday`: drops the first name under the key; saves only
     * when the key is stored.
     */
    method DeleteBirthday(key: DayMonth) returns (r: Response)
      modifies this`tasksFile, this`birthdaysFile, this`marksFile
      ensures r == Redirect
      ensures key !in old(birthdaysFile) ==> Files() == old(Files())
      ensures key in old(birthdaysFile) ==>
        var d := Saved(old(Files()));
        Files() == d.(birthdays := DeleteFirst(d.birthdays, key))
    {
      var d := LoadData();
      if key in d.birthdays {
        SaveData(d.(birthdays := DeleteFirst(d.birthdays, key)));
      }
      r := Redirect;
    }

    /**
     * `delete_specific_birthday`: drops the first occurrence of the name
     * under the key; saves whenever the key is stored.
     */
    method DeleteSpecificBirthday(key: DayMonth, name: string) returns (r: Response)
      modifies this`tasksFile, this`birthdaysFile, this`marksFile
      ensures r == Redirect
      ensures key !in old(birthdaysFile) ==> Files() == old(Files())
      ensures key in old(birthdaysFile) ==>
        var d := Saved(old(Files()));
        Files() == d.(birthdays := DeleteValue(d.birthdays, key, name))
    {
      var d := LoadData();
      if key in d.birthdays {
        SaveData(d.(birthdays := DeleteValue(d.birthdays, key, name)));
      }
      r := Redirect;
    }

    // ------------------------------------------------------------ marks

    /** `add_mark`: as `add_birthday`, keyed by the full date. */
    method AddMark(date: DateField<Civil>, text: string) returns (r: Response)
      modifies this`tasksFile, this`birthdaysFile, this`marksFile
      ensures date.NoDate? || text == [] ==> r == Redirect && Files() == old(Files())
      ensures !date.NoDate? && !MarkDateParses(date) && text != [] ==>
        r == BadRequest(BadFullDate) && Files() == old(Files())
      ensures MarkDateParses(date) && text != [] ==>
        var d := Saved(old(Files()));
        r == Redirect && Files() == d.(marks := Add(d.marks, date.key, text))
    {
      if !date.NoDate? && text != [] {
        if !MarkDateParses(date) {
          return BadRequest(BadFullDate);
        }
        var d := LoadData();
        SaveData(d.(marks := Add(d.marks, date.key, text)));
      }
      r := Redirect;
    }

    /** `delete_mark`: as `delete_birthday`, keyed by the full date. */
    method DeleteMark(key: Civil) returns (r: Response)
      modifies this`tasksFile, this`birthdaysFile, this`marksFile
      ensures r == Redirect
      ensures key !in old(marksFile) ==> Files() == old(Files())
      ensures key in old(marksFile) ==>
        var d := Saved(old(Files()));
        Files() == d.(marks := DeleteFirst(d.marks, key))
    {
      var d := LoadData();
      if key in d.marks {
        SaveData(d.(marks := DeleteFirst(d.marks, key)));
      }
      r := Redirect;
    }

    /** `delete_specific_mark`: as `delete_specific_birthday`, keyed by the full date. */
    method DeleteSpecificMark(key: Civil, text: string) returns (r: Response)
      modifies this`tasksFile, this`birthdaysFile, this`marksFile
      ensures r == Redirect
      ensures key !in old(marksFile) ==> Files() == old(Files())
      ensures key in old(marksFile) ==>
        var d := Saved(old(Files()));
        Files() == d.(marks := DeleteValue(d.marks, key, text))
    {
      var d := LoadData();
      if key in d.marks {
        SaveData(d.(marks := DeleteValue(d.marks, key, text)));
      }
      r := Redirect;
    }
  }
}
