/**
 * The page's week view (`index`): the Monday the shown week starts on,
 * the seven day cells with the occurrences, birthdays and marks that fall
 * on each, and the order the task list is shown in.
 */
module Week {
  import opened Wrappers
  import opened Dates
  import opened Entries
  import opened Events
  import opened Tasks

  const DayNames: seq<string> := ["Пн", "Вт", "Ср", "Чт", "Пт", "Сб", "Вс"]

  /**
   * The Monday of the shown week: today's Monday moved by `offset` weeks.
   */
  function WeekStart(today: Day, offset: int): (start: Day)
    ensures Weekday(start) == 0
    ensures start <= today + 7 * offset < start + 7
  {
    var q := (today + 6) / 7;
    assert today + 6 == 7 * q + Weekday(today);
    var start := today - Weekday(today) + 7 * offset;
    assert start + 6 == 7 * (q + offset);
    MondayOfWeek(q + offset);
    start
  }

  /** The day before each seventh ordinal, counting from day 1, is a Monday. */
  lemma MondayOfWeek(k: int)
    ensures Weekday(7 * k - 6) == 0
  {
  }

  /** Moving one week on moves the shown Monday by seven days. */
  lemma NextWeekIsSevenDaysOn(today: Day, offset: int)
    ensures WeekStart(today, offset + 1) == WeekStart(today, offset) + 7
    ensures WeekStart(today, offset - 1) == WeekStart(today, offset) - 7
  {
  }

  /** The i-th cell of a week falls on the i-th weekday, Monday first. */
  lemma {:induction false} CellWeekday(start: Day, i: nat)
    requires Weekday(start) == 0 && i < 7
    ensures Weekday(start + i) == i
  {
    assert (start + 6) % 7 == 0;
    var q := (start + 6) / 7;
    assert start + i + 6 == 7 * q + i;
  }

  // ---------------------------------------------------------------- cells

  /** One birthday or mark as the page lists it: its key and one stored value. */
  datatype Listed<K> = Listed(key: K, value: string)

  /** One day cell of the week. */
  datatype DayCell = DayCell(
    date: Day,
    dayName: string,
    events: seq<Occurrence>,
    birthdays: seq<Listed<DayMonth>>,
    marks: seq<Listed<Civil>>)

  /** The occurrences whose start falls on day `d`, in list order. */
  function EventsOn(es: seq<Occurrence>, d: Day): seq<Occurrence> {
    if es == [] then []
    else EventsOn(es[..|es| - 1], d) + (if es[|es| - 1].start.date == d then [es[|es| - 1]] else [])
  }

  /** The values stored under `k`, each paired with the key, in stored order. */
  function ListedAt<K>(m: map<K, Entry<string>>, k: K): (r: seq<Listed<K>>)
    ensures |r| == |ValuesAt(m, k)|
    ensures forall j :: 0 <= j < |r| ==> r[j] == Listed(k, ValuesAt(m, k)[j])
  {
    var vs := ValuesAt(m, k);
    seq(|vs|, j requires 0 <= j < |vs| => Listed(k, vs[j]))
  }

  /** The cell of the day `start + i`. */
  function CellAt(es: seq<Occurrence>, b: map<DayMonth, Entry<string>>, m: map<Civil, Entry<string>>,
                  start: Day, i: nat): DayCell
    requires i < 7
  {
    var d := start + i;
    DayCell(d, DayNames[i], EventsOn(es, d), ListedAt(b, DayMonthOf(d)), ListedAt(m, FromOrdinal(d)))
  }

  /** An occurrence is listed on a day exactly when it starts on that day. */
  lemma {:induction false} EventsOnIff(es: seq<Occurrence>, d: Day, e: Occurrence)
    ensures e in EventsOn(es, d) <==> e in es && e.start.date == d
  {
    if es != [] {
      var init := es[..|es| - 1];
      EventsOnIff(init, d, e);
      assert es == init + [es[|es| - 1]];
    }
  }

  /** Listing keeps the list's order: the occurrences on a day of `a + b` are those of `a`, then of `b`. */
  lemma {:induction false} EventsOnAppend(a: seq<Occurrence>, b: seq<Occurrence>, d: Day)
    ensures EventsOn(a + b, d) == EventsOn(a, d) + EventsOn(b, d)
  {
    if b != [] {
      var init := b[..|b| - 1];
      assert (a + b)[..|a + b| - 1] == a + init;
      EventsOnAppend(a, init, d);
    } else {
      assert a + b == a;
    }
  }

  /** Each occurrence of the list appears in the cell of its start day and in no other. */
  lemma OccurrenceInOneCell(es: seq<Occurrence>, e: Occurrence, d1: Day, d2: Day)
    requires e in es
    requires e in EventsOn(es, d1) && e in EventsOn(es, d2)
    ensures d1 == d2 == e.start.date
  {
    EventsOnIff(es, d1, e);
    EventsOnIff(es, d2, e);
  }

  // ---------------------------------------------------------------- building

  /** The loop over the occurrences for one day. */
  method CollectEvents(es: seq<Occurrence>, d: Day) returns (dayEvents: seq<Occurrence>)
    ensures dayEvents == EventsOn(es, d)
  {
    dayEvents := [];
    for k := 0 to |es|
      invariant dayEvents == EventsOn(es[..k], d)
    {
      assert es[..k + 1][..k] == es[..k];
      if es[k].start.date == d {
        dayEvents := dayEvents + [es[k]];
      }
    }
    assert es[..|es|] == es;
  }

  /** The loop over the values stored under one key. */
  method CollectListed<K>(m: map<K, Entry<string>>, k: K) returns (listed: seq<Listed<K>>)
    ensures listed == ListedAt(m, k)
  {
    listed := [];
    if k in m {
      var vs := Values(m[k]);
      for j := 0 to |vs|
        invariant listed == ListedAt(m, k)[..j]
      {
        listed := listed + [Listed(k, vs[j])];
      }
    }
  }

  /** The body of the loop over the seven days: the cell of the day `start + i`. */
  method BuildCell(es: seq<Occurrence>, b: map<DayMonth, Entry<string>>, m: map<Civil, Entry<string>>,
                   start: Day, i: nat) returns (cell: DayCell)
    requires i < 7
    ensures cell == CellAt(es, b, m, start, i)
  {
    var d := start + i;
    var dayEvents := CollectEvents(es, d);
    var dayBirthdays := CollectListed(b, DayMonthOf(d));
    var dayMarks := CollectListed(m, FromOrdinal(d));
    cell := DayCell(d, DayNames[i], dayEvents, dayBirthdays, dayMarks);
  }

  /** The loop over the seven days of the shown week. */
  method BuildWeek(es: seq<Occurrence>, b: map<DayMonth, Entry<string>>, m: map<Civil, Entry<string>>,
                   today: Day, offset: int) returns (week: seq<DayCell>)
    ensures |week| == 7
    ensures forall i :: 0 <= i < 7 ==> week[i] == CellAt(es, b, m, WeekStart(today, offset), i)
  {
    var start := WeekStart(today, offset);
    week := [];
    for i := 0 to 7
      invariant |week| == i
      invariant forall j :: 0 <= j < i ==> week[j] == CellAt(es, b, m, start, j)
    {
      var cell := BuildCell(es, b, m, start, i);
      week := week + [cell];
    }
  }

  /** The cells run Monday to Sunday over seven consecutive days, each named by its weekday. */
  lemma CellsAreTheWeek(es: seq<Occurrence>, b: map<DayMonth, Entry<string>>, m: map<Civil, Entry<string>>,
                        today: Day, offset: int, i: nat)
    requires i < 7
    ensures var c := CellAt(es, b, m, WeekStart(today, offset), i);
      c.date == WeekStart(today, offset) + i && Weekday(c.date) == i && c.dayName == DayNames[Weekday(c.date)]
  {
    CellWeekday(WeekStart(today, offset), i);
  }

  /**
   * A birthday shows on a cell exactly when its `DD.MM` key is the cell
   * day's, whatever the year; a mark exactly when its full date is the cell's.
   */
  lemma CellListsItsKeys(es: seq<Occurrence>, b: map<DayMonth, Entry<string>>, m: map<Civil, Entry<string>>,
                         start: Day, i: nat, name: string, text: string)
    requires i < 7
    ensures var c := CellAt(es, b, m, start, i);
      var key := DayMonthOf(start + i);
      var date := FromOrdinal(start + i);
      (Listed(key, name) in c.birthdays <==> name in ValuesAt(b, key)) &&
      (Listed(date, text) in c.marks <==> text in ValuesAt(m, date)) &&
      (forall l :: l in c.birthdays ==> l.key == key) &&
      (forall l :: l in c.marks ==> l.key == date)
  {
    var c := CellAt(es, b, m, start, i);
    var key := DayMonthOf(start + i);
    var date := FromOrdinal(start + i);
    if name in ValuesAt(b, key) {
      var j :| 0 <= j < |ValuesAt(b, key)| && ValuesAt(b, key)[j] == name;
      assert c.birthdays[j] == Listed(key, name);
    }
    if text in ValuesAt(m, date) {
      var j :| 0 <= j < |ValuesAt(m, date)| && ValuesAt(m, date)[j] == text;
      assert c.marks[j] == Listed(date, text);
    }
  }

  // ---------------------------------------------------------------- task order

  /** The deadline as a sort key; only read for tasks whose deadline parsed. */
  function DeadlineKey(t: Task): Day {
    t.deadline.GetOr(0)
  }

  predicate AllDated(ts: seq<Task>) {
    forall t :: t in ts ==> t.deadline.Some?
  }

  predicate SortedByDeadline(ts: seq<Task>) {
    forall i, j :: 0 <= i < j < |ts| ==> DeadlineKey(ts[i]) <= DeadlineKey(ts[j])
  }

  /** The first task of a sorted list is due no later than any of the others. */
  lemma SortedHeadIsLeast(ts: seq<Task>)
    requires ts != []
    ensures SortedByDeadline(ts) ==> forall x :: x in ts[1..] ==> DeadlineKey(ts[0]) <= DeadlineKey(x)
  {
    forall x | SortedByDeadline(ts) && x in ts[1..]
      ensures DeadlineKey(ts[0]) <= DeadlineKey(x)
    {
      var j :| 0 <= j < |ts[1..]| && ts[1..][j] == x;
      assert ts[j + 1] == x;
    }
  }

  /** Inserts `t` after every task due no later than it, keeping equal deadlines in arrival order. */
  function InsertByDeadline(t: Task, ts: seq<Task>): (r: seq<Task>)
    ensures multiset(r) == multiset(ts) + multiset{t}
  {
    if ts == [] then [t]
    else if DeadlineKey(t) < DeadlineKey(ts[0]) then [t] + ts
    else
      assert ts == [ts[0]] + ts[1..];
      [ts[0]] + InsertByDeadline(t, ts[1..])
  }

  /** Inserting into a sorted list keeps it sorted. */
  lemma {:induction false} InsertKeepsSorted(t: Task, ts: seq<Task>)
    requires SortedByDeadline(ts)
    ensures SortedByDeadline(InsertByDeadline(t, ts))
  {
    if ts != [] && DeadlineKey(t) >= DeadlineKey(ts[0]) {
      var rest := InsertByDeadline(t, ts[1..]);
      assert SortedByDeadline(ts[1..]) by {
        forall i, j | 0 <= i < j < |ts[1..]|
          ensures DeadlineKey(ts[1..][i]) <= DeadlineKey(ts[1..][j])
        {
          assert ts[1..][i] == ts[i + 1] && ts[1..][j] == ts[j + 1];
        }
      }
      InsertKeepsSorted(t, ts[1..]);
      SortedHeadIsLeast(ts);
      forall x | x in rest
        ensures DeadlineKey(ts[0]) <= DeadlineKey(x)
      {
        assert x in multiset(rest);
      }
      SortedCons(ts[0], rest);
    }
  }

  /** A task due no later than every task of a sorted list can go in front of it. */
  lemma SortedCons(x: Task, rest: seq<Task>)
    requires SortedByDeadline(rest)
    requires forall y :: y in rest ==> DeadlineKey(x) <= DeadlineKey(y)
    ensures SortedByDeadline([x] + rest)
  {
    var r := [x] + rest;
    forall i, j | 0 <= i < j < |r|
      ensures DeadlineKey(r[i]) <= DeadlineKey(r[j])
    {
      assert r[j] == rest[j - 1];
      if i > 0 {
        assert r[i] == rest[i - 1];
      }
    }
  }

  /** The tasks sorted by deadline, by insertion from the back of the list. */
  function SortByDeadline(ts: seq<Task>): (r: seq<Task>)
    ensures multiset(r) == multiset(ts)
    ensures SortedByDeadline(r)
  {
    if ts == [] then []
    else
      var init := ts[..|ts| - 1];
      assert ts == init + [ts[|ts| - 1]];
      InsertKeepsSorted(ts[|ts| - 1], SortByDeadline(init));
      InsertByDeadline(ts[|ts| - 1], SortByDeadline(init))
  }

  function Open(ts: seq<Task>): (r: seq<Task>)
    ensures forall t :: t in r <==> t in ts && !t.completed
  {
    if ts == [] then [] else (if ts[0].completed then [] else [ts[0]]) + Open(ts[1..])
  }

  function Done(ts: seq<Task>): (r: seq<Task>)
    ensures forall t :: t in r <==> t in ts && t.completed
  {
    if ts == [] then [] else (if ts[0].completed then [ts[0]] else []) + Done(ts[1..])
  }

  /** The open tasks keep their stored order: those of `a + b` are those of `a`, then of `b`. */
  lemma {:induction false} OpenAppend(a: seq<Task>, b: seq<Task>)
    ensures Open(a + b) == Open(a) + Open(b)
    decreases |a|
  {
    if a == [] {
      assert a + b == b;
    } else {
      assert (a + b)[1..] == a[1..] + b;
      OpenAppend(a[1..], b);
    }
  }

  /** The completed tasks keep their stored order: those of `a + b` are those of `a`, then of `b`. */
  lemma {:induction false} DoneAppend(a: seq<Task>, b: seq<Task>)
    ensures Done(a + b) == Done(a) + Done(b)
    decreases |a|
  {
    if a == [] {
      assert a + b == b;
    } else {
      assert (a + b)[1..] == a[1..] + b;
      DoneAppend(a[1..], b);
    }
  }

  /**
   * The list the page shows: open tasks, sorted by deadline when every
   * open task's deadline parses and in stored order otherwise, then the
   * completed ones in stored order.
   */
  function ShownTasks(ts: seq<Task>): seq<Task> {
    var open := Open(ts);
    (if AllDated(open) then SortByDeadline(open) else open) + Done(ts)
  }

  /** Splitting into open and completed loses and adds no task. */
  lemma {:induction false} SplitKeepsTasks(ts: seq<Task>)
    ensures multiset(Open(ts)) + multiset(Done(ts)) == multiset(ts)
  {
    if ts != [] {
      SplitKeepsTasks(ts[1..]);
      assert ts == [ts[0]] + ts[1..];
    }
  }

  /**
   * The shown list is the stored list reordered, with every open task
   * before every completed one, and the open ones in deadline order when
   * all their deadlines parse.
   */
  lemma ShownTasksOrder(ts: seq<Task>)
    ensures multiset(ShownTasks(ts)) == multiset(ts)
    ensures var r := ShownTasks(ts);
      forall i, j :: 0 <= i < j < |r| && r[i].completed ==> r[j].completed
    ensures AllDated(Open(ts)) ==> SortedByDeadline(ShownTasks(ts)[..|Open(ts)|])
    ensures ShownTasks(ts)[|Open(ts)|..] == Done(ts)
    ensures !AllDated(Open(ts)) ==> ShownTasks(ts) == Open(ts) + Done(ts)
  {
    SplitKeepsTasks(ts);
    var open := Open(ts);
    var first := if AllDated(open) then SortByDeadline(open) else open;
    assert |first| == |open| by {
      assert |multiset(first)| == |multiset(open)|;
    }
    assert forall x :: x in first ==> !x.completed by {
      forall x | x in first
        ensures !x.completed
      {
        assert x in multiset(first);
      }
    }
    OpenBeforeDone(first, Done(ts));
    assert (first + Done(ts))[..|open|] == first;
    assert (first + Done(ts))[|open|..] == Done(ts);
  }

  /** Joining a list of open tasks to a list of completed ones puts no completed task first. */
  lemma OpenBeforeDone(first: seq<Task>, done: seq<Task>)
    requires forall x :: x in first ==> !x.completed
    requires forall x :: x in done ==> x.completed
    ensures var r := first + done;
      forall i, j :: 0 <= i < j < |r| && r[i].completed ==> r[j].completed
  {
    var r := first + done;
    forall i, j | 0 <= i < j < |r| && r[i].completed
      ensures r[j].completed
    {
      assert r[j] == done[j - |first|];
    }
  }
}
