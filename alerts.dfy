/**
 * One pass of the notification scanner (`check_upcoming_events`, the body
 * of its loop): the alerts for tasks due within three days, for events
 * that start tomorrow, and for birthdays in the coming seven days, in that
 * order. The result replaces the current alert list (`App.CalendarApp`).
 */
module Alerts {
  import opened Wrappers
  import opened Dates
  import opened Entries
  import opened Events
  import opened Tasks

  datatype AlertKind = TaskKind | EventKind | BirthdayKind

  /**
   * An alert: its kind, what its text names, and the day its `date` field
   * names. `Message` renders the text and `Kind` the `type` field.
   */
  datatype Alert =
    | TaskAlert(description: string, daysLeft: nat, date: Day)
    | EventAlert(summary: string, date: Day)
    | BirthdayAlert(name: string, inDays: nat, date: Day)

  function Kind(a: Alert): AlertKind {
    match a
    case TaskAlert(_, _, _) => TaskKind
    case EventAlert(_, _) => EventKind
    case BirthdayAlert(_, _, _) => BirthdayKind
  }

  function DigitChar(d: nat): char
    requires d < 10
  {
    ('0' as int + d) as char
  }

  /** Decimal text of a count, as an f-string writes it. */
  function NatText(n: nat): (s: string)
    ensures |s| >= 1
    ensures forall i :: 0 <= i < |s| ==> '0' <= s[i] <= '9'
    decreases n
  {
    if n < 10 then [DigitChar(n)] else NatText(n / 10) + [DigitChar(n % 10)]
  }

  /** The number a string of decimal digits denotes. */
  function DigitsValue(s: string): int
    decreases |s|
  {
    if s == [] then 0 else DigitsValue(s[..|s| - 1]) * 10 + (s[|s| - 1] as int - '0' as int)
  }

  /** The text of a count reads back as that count, so different counts have different texts. */
  lemma {:induction false} NatTextReadsBack(n: nat)
    ensures DigitsValue(NatText(n)) == n
    decreases n
  {
    if n >= 10 {
      NatTextReadsBack(n / 10);
      var s := NatText(n);
      assert s[..|s| - 1] == NatText(n / 10);
    }
  }

  /** The text of an alert; a birthday at offset 0 is worded as today. */
  function Message(a: Alert): string {
    match a
    case TaskAlert(description, days, _) =>
      "Задача \"" + description + "\" должна быть выполнена через " + NatText(days) + " дн."
    case EventAlert(summary, _) =>
      "Завтра событие: " + summary
    case BirthdayAlert(name, inDays, _) =>
      if inDays == 0 then "Сегодня день рождения у " + name + "!"
      else "Через " + NatText(inDays) + " дн. день рождения у " + name
  }

  /** An open task with a readable deadline between today and three days on. */
  predicate DueSoon(t: Task, today: Day) {
    !t.completed && t.deadline.Some? && 0 <= t.deadline.value - today <= 3
  }

  /** The alert a task gives, or none. */
  function TaskAlertsOf(t: Task, today: Day): (r: seq<Alert>)
    ensures |r| <= 1
    ensures r != [] <==> DueSoon(t, today)
  {
    if DueSoon(t, today) then [TaskAlert(t.description, t.deadline.value - today, t.deadline.value)] else []
  }

  function TaskAlerts(ts: seq<Task>, today: Day): seq<Alert>
    decreases |ts|
  {
    if ts == [] then [] else TaskAlerts(ts[..|ts| - 1], today) + TaskAlertsOf(ts[|ts| - 1], today)
  }

  /** The alert an occurrence gives, or none: one when it starts on `tomorrow`. */
  function EventAlertsOf(e: Occurrence, tomorrow: Day): (r: seq<Alert>)
    ensures |r| <= 1
    ensures r != [] <==> e.start.date == tomorrow
  {
    if e.start.date == tomorrow then [EventAlert(e.summary, e.start.date)] else []
  }

  function EventAlerts(es: seq<Occurrence>, tomorrow: Day): seq<Alert>
    decreases |es|
  {
    if es == [] then [] else EventAlerts(es[..|es| - 1], tomorrow) + EventAlertsOf(es[|es| - 1], tomorrow)
  }

  /** One alert per name, in the given order, for a day `inDays` days from today. */
  function NamesAlerts(names: seq<string>, inDays: nat, date: Day): (r: seq<Alert>)
    ensures |r| == |names|
    ensures forall j :: 0 <= j < |r| ==> r[j] == BirthdayAlert(names[j], inDays, date)
  {
    seq(|names|, j requires 0 <= j < |names| => BirthdayAlert(names[j], inDays, date))
  }

  /** The `DD.MM` keys of today and the six days after it, as the loop formats them. */
  function WeekKeys(today: Day): (keys: seq<DayMonth>)
  {
    seq(7, i requires 0 <= i < 7 => DayMonthOf(today + i))
  }

  /** The alerts for the names stored under key `keys[i]`, the day `i` days from today. */
  function BirthdayAlertsOn(b: map<DayMonth, Entry<string>>, keys: seq<DayMonth>, today: Day, i: nat): seq<Alert>
    requires i < |keys|
  {
    NamesAlerts(ValuesAt(b, keys[i]), i, today + i)
  }

  /** The birthday alerts for offsets 0 to n - 1, offset by offset. */
  function BirthdayAlerts(b: map<DayMonth, Entry<string>>, keys: seq<DayMonth>, today: Day, n: nat): seq<Alert>
    requires n <= |keys|
  {
    if n == 0 then [] else BirthdayAlerts(b, keys, today, n - 1) + BirthdayAlertsOn(b, keys, today, n - 1)
  }

  /** The alert list one pass of the scanner computes. */
  function ScanAlerts(ts: seq<Task>, b: map<DayMonth, Entry<string>>, es: seq<Occurrence>, today: Day): seq<Alert> {
    TaskAlerts(ts, today) + EventAlerts(es, today + 1) + BirthdayAlerts(b, WeekKeys(today), today, 7)
  }

  // ---------------------------------------------------------------- lemmas

  /** A birthday two days on is worded with the count 2, and is of the birthday kind. */
  lemma BirthdayMessageInTwoDays(name: string, date: Day)
    ensures NatText(2) == "2"
    ensures Message(BirthdayAlert(name, 2, date)) == "Через " + NatText(2) + " дн. день рождения у " + name
    ensures Kind(BirthdayAlert(name, 2, date)) == BirthdayKind
  {
    assert NatText(2) == [DigitChar(2)];
  }

  /** A birthday today is worded as today, with no count. */
  lemma BirthdayMessageToday(name: string, date: Day)
    ensures Message(BirthdayAlert(name, 0, date)) == "Сегодня день рождения у " + name + "!"
  {
  }

  /** A task alert's text carries its day count: two alerts for one description with different counts read differently. */
  lemma {:induction false} TaskMessageCarriesCount(description: string, d1: nat, d2: nat, date1: Day, date2: Day)
    requires d1 != d2
    ensures Message(TaskAlert(description, d1, date1)) != Message(TaskAlert(description, d2, date2))
  {
    var prefix := "Задача \"" + description + "\" должна быть выполнена через ";
    var t1, t2 := NatText(d1), NatText(d2);
    NatTextReadsBack(d1);
    NatTextReadsBack(d2);
    var m1 := Message(TaskAlert(description, d1, date1));
    var m2 := Message(TaskAlert(description, d2, date2));
    assert m1 == prefix + t1 + " дн." && m2 == prefix + t2 + " дн.";
    assert m1[|prefix|..|m1| - 4] == t1;
    assert m2[|prefix|..|m2| - 4] == t2;
  }

  /** Task alerts of a list are those of its parts, in order: one per due task. */
  lemma {:induction false} TaskAlertsAppend(a: seq<Task>, b: seq<Task>, today: Day)
    ensures TaskAlerts(a + b, today) == TaskAlerts(a, today) + TaskAlerts(b, today)
    decreases |b|
  {
    if b == [] {
      assert a + b == a;
    } else {
      assert (a + b)[..|a + b| - 1] == a + b[..|b| - 1];
      TaskAlertsAppend(a, b[..|b| - 1], today);
    }
  }

  /**
   * An alert is a task alert exactly when some open task is due in 0 to 3
   * days and the alert names that task, its day count and its deadline.
   */
  lemma {:induction false} TaskAlertsIff(ts: seq<Task>, today: Day, a: Alert)
    ensures a in TaskAlerts(ts, today) <==>
      exists k :: 0 <= k < |ts| && DueSoon(ts[k], today)
        && a == TaskAlert(ts[k].description, ts[k].deadline.value - today, ts[k].deadline.value)
    decreases |ts|
  {
    if ts != [] {
      var init := ts[..|ts| - 1];
      TaskAlertsIff(init, today, a);
      assert forall k :: 0 <= k < |init| ==> init[k] == ts[k];
    }
  }

  /** A task alert counts between 0 and 3 days and is dated at its task's deadline. */
  lemma TaskAlertsAreNear(ts: seq<Task>, today: Day, a: Alert)
    requires a in TaskAlerts(ts, today)
    ensures exists k :: 0 <= k < |ts| && ts[k].deadline == Some(a.date) && 0 <= a.date - today <= 3
  {
    TaskAlertsIff(ts, today, a);
  }

  /** A task due in two days gives one alert saying 2; the same task done gives none. */
  lemma TaskDueInTwoDays(t: Task, today: Day)
    requires t.deadline == Some(today + 2)
    ensures !t.completed ==> TaskAlerts([t], today) == [TaskAlert(t.description, 2, today + 2)]
    ensures t.completed ==> TaskAlerts([t], today) == []
  {
    assert [t][..0] == [];
  }

  /** An alert is an event alert exactly when some occurrence starts tomorrow and the alert names it. */
  lemma {:induction false} EventAlertsIff(es: seq<Occurrence>, tomorrow: Day, a: Alert)
    ensures a in EventAlerts(es, tomorrow) <==>
      exists k :: 0 <= k < |es| && es[k].start.date == tomorrow && a == EventAlert(es[k].summary, tomorrow)
    decreases |es|
  {
    if es != [] {
      var init := es[..|es| - 1];
      EventAlertsIff(init, tomorrow, a);
      assert forall k :: 0 <= k < |init| ==> init[k] == es[k];
    }
  }

  /** An alert is a birthday alert exactly when it belongs to one of the offsets below `n`. */
  lemma {:induction false} BirthdayAlertsIff(b: map<DayMonth, Entry<string>>, keys: seq<DayMonth>, today: Day, n: nat, a: Alert)
    requires n <= |keys|
    ensures a in BirthdayAlerts(b, keys, today, n) <==> exists i :: 0 <= i < n && a in BirthdayAlertsOn(b, keys, today, i)
  {
    if n > 0 {
      var prev := BirthdayAlerts(b, keys, today, n - 1);
      var last := BirthdayAlertsOn(b, keys, today, n - 1);
      assert BirthdayAlerts(b, keys, today, n) == prev + last;
      BirthdayAlertsIff(b, keys, today, n - 1, a);
      if a in last {
        assert 0 <= n - 1 < n;
      } else if a !in prev {
        forall i | 0 <= i < n
          ensures a !in BirthdayAlertsOn(b, keys, today, i)
        {
          if i < n - 1 {
            assert !(0 <= i < n - 1 && a in BirthdayAlertsOn(b, keys, today, i));
          }
        }
      }
    }
  }

  /** Offsets come in ascending order: the alerts up to `i` begin the alerts up to `n`. */
  lemma {:induction false} BirthdayAlertsAscend(b: map<DayMonth, Entry<string>>, keys: seq<DayMonth>, today: Day, i: nat, n: nat)
    requires i <= n <= |keys|
    ensures BirthdayAlerts(b, keys, today, i) <= BirthdayAlerts(b, keys, today, n)
    decreases n - i
  {
    if i < n {
      BirthdayAlertsAscend(b, keys, today, i, n - 1);
    }
  }

  /** Example check: the keys of the week from the 23rd of March are 23.03 to 29.03, in any year. */
  lemma WeekKeysFromMarch23(year: int)
    ensures WeekKeys(ToOrdinal(Civil(year, 3, 23))) ==
      [DayMonth(23, 3), DayMonth(24, 3), DayMonth(25, 3), DayMonth(26, 3),
       DayMonth(27, 3), DayMonth(28, 3), DayMonth(29, 3)]
  {
    var today := ToOrdinal(Civil(year, 3, 23));
    forall i | 0 <= i < 7
      ensures WeekKeys(today)[i] == DayMonth(23 + i, 3)
    {
      MarchKey(year, i);
      assert WeekKeys(today)[i] == DayMonthOf(today + i);
    }
  }

  /** Example check helper: the day `i` days after the 23rd of March (`i` below 7) is the (23 + i)th of March. */
  lemma MarchKey(year: int, i: int)
    requires 0 <= i < 7
    ensures DayMonthOf(ToOrdinal(Civil(year, 3, 23)) + i) == DayMonth(23 + i, 3)
  {
    var c := Civil(year, 3, 23 + i);
    assert ToOrdinal(c) == ToOrdinal(Civil(year, 3, 23)) + i;
    FromToOrdinal(c);
  }

  /**
   * Example check: with one name stored under 25.03 and today the 23rd of March of any
   * year, the pass gives one birthday alert, "in 2 days", dated the 25th.
   */
  lemma BirthdayInTwoDays(year: int, today: Day, name: string)
    requires today == ToOrdinal(Civil(year, 3, 23))
    ensures BirthdayAlerts(map[DayMonth(25, 3) := Many([name])], WeekKeys(today), today, 7)
        == [BirthdayAlert(name, 2, today + 2)]
  {
    WeekKeysFromMarch23(year);
    MarchBirthday(today, name);
  }

  /**
   * Example check: over the keys 23.03 to 29.03 with one name under 25.03,
   * the birthday pass gives exactly one alert, two days ahead.
   */
  lemma MarchBirthday(today: Day, name: string)
    ensures var keys := [DayMonth(23, 3), DayMonth(24, 3), DayMonth(25, 3), DayMonth(26, 3),
                         DayMonth(27, 3), DayMonth(28, 3), DayMonth(29, 3)];
      BirthdayAlerts(map[DayMonth(25, 3) := Many([name])], keys, today, 7)
        == [BirthdayAlert(name, 2, today + 2)]
  {
    var keys := [DayMonth(23, 3), DayMonth(24, 3), DayMonth(25, 3), DayMonth(26, 3),
                 DayMonth(27, 3), DayMonth(28, 3), DayMonth(29, 3)];
    var b := map[DayMonth(25, 3) := Many([name])];
    assert ValuesAt(b, keys[0]) == [] && ValuesAt(b, keys[1]) == [];
    assert ValuesAt(b, keys[2]) == [name];
    assert ValuesAt(b, keys[3]) == [] && ValuesAt(b, keys[4]) == [];
    assert ValuesAt(b, keys[5]) == [] && ValuesAt(b, keys[6]) == [];
    assert BirthdayAlerts(b, keys, today, 1) == [];
    assert BirthdayAlerts(b, keys, today, 2) == [];
    assert BirthdayAlerts(b, keys, today, 3) == [BirthdayAlert(name, 2, today + 2)];
    assert BirthdayAlerts(b, keys, today, 4) == [BirthdayAlert(name, 2, today + 2)];
    assert BirthdayAlerts(b, keys, today, 5) == [BirthdayAlert(name, 2, today + 2)];
    assert BirthdayAlerts(b, keys, today, 6) == [BirthdayAlert(name, 2, today + 2)];
  }

  // ---------------------------------------------------------------- method

  /** The scan: tasks, then tomorrow's events, then each of the seven days' birthdays. */
  method Scan(ts: seq<Task>, b: map<DayMonth, Entry<string>>, es: seq<Occurrence>, today: Day)
    returns (alerts: seq<Alert>)
    ensures alerts == ScanAlerts(ts, b, es, today)
  {
    var taskAlerts := ScanTasks(ts, today);
    var eventAlerts := ScanEvents(es, today + 1);
    var birthdayAlerts := ScanBirthdays(b, today);
    alerts := taskAlerts + eventAlerts + birthdayAlerts;
  }

  /** The loop over the tasks: an alert for each open task due in 0 to 3 days. */
  method ScanTasks(ts: seq<Task>, today: Day) returns (alerts: seq<Alert>)
    ensures alerts == TaskAlerts(ts, today)
  {
    alerts := [];
    for k := 0 to |ts|
      invariant alerts == TaskAlerts(ts[..k], today)
    {
      assert ts[..k + 1][..k] == ts[..k];
      var t := ts[k];
      if !t.completed && t.deadline.Some? {
        var daysUntil := t.deadline.value - today;
        if 0 <= daysUntil <= 3 {
          alerts := alerts + [TaskAlert(t.description, daysUntil, t.deadline.value)];
        }
      }
    }
    assert ts[..|ts|] == ts;
  }

  /** The loop over the occurrences: an alert for each one starting tomorrow. */
  method ScanEvents(es: seq<Occurrence>, tomorrow: Day) returns (alerts: seq<Alert>)
    ensures alerts == EventAlerts(es, tomorrow)
  {
    alerts := [];
    for k := 0 to |es|
      invariant alerts == EventAlerts(es[..k], tomorrow)
    {
      assert es[..k + 1][..k] == es[..k];
      if es[k].start.date == tomorrow {
        alerts := alerts + [EventAlert(es[k].summary, es[k].start.date)];
      }
    }
    assert es[..|es|] == es;
  }

  /** The loop over the seven days: an alert per name stored under each day's `DD.MM` key. */
  method ScanBirthdays(b: map<DayMonth, Entry<string>>, today: Day) returns (alerts: seq<Alert>)
    ensures alerts == BirthdayAlerts(b, WeekKeys(today), today, 7)
  {
    alerts := [];
    ghost var keys := WeekKeys(today);
    for i := 0 to 7
      invariant alerts == BirthdayAlerts(b, keys, today, i)
    {
      var key := DayMonthOf(today + i);
      assert key == keys[i];
      if key in b {
        var named := AlertNames(Values(b[key]), i, today + i);
        alerts := alerts + named;
      } else {
        assert BirthdayAlertsOn(b, keys, today, i) == [];
      }
    }
  }

  /** The inner loop over the names stored under one key. */
  method AlertNames(names: seq<string>, inDays: nat, date: Day) returns (alerts: seq<Alert>)
    ensures alerts == NamesAlerts(names, inDays, date)
  {
    alerts := [];
    for j := 0 to |names|
      invariant alerts == NamesAlerts(names[..j], inDays, date)
    {
      alerts := alerts + [BirthdayAlert(names[j], inDays, date)];
    }
    assert names[..|names|] == names;
  }
}
