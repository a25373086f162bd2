/**
 * Expansion of a calendar feed's events into occurrences (the body of
 * `load_schedule`). A feed is the sequence of components the iCalendar
 * parser walks; each VEVENT carries the SUMMARY, DESCRIPTION, LOCATION,
 * DTSTART, DTEND and RRULE properties of section 3.6.1 of RFC 5545. The
 * recurrence rule grammar of section 3.3.10 of RFC 5545 is evaluated by a
 * rule engine passed in as a function, which either yields the instants of
 * the rule inside a window or fails.
 */
module Events {
  import opened Wrappers
  import opened Dates

  /** A DTSTART or DTEND value: a date (VALUE=DATE) or a date-time. */
  datatype When = DateOnly(date: Day) | DateTime(at: Instant)

  /** The calendar day of a value (`dt.date()` for a date-time). */
  function DatePart(w: When): Day {
    match w
    case DateOnly(d) => d
    case DateTime(t) => DayOf(t)
  }

  /** A date stands for its midnight wherever an instant is needed. */
  function AsInstant(w: When): (t: Instant)
    ensures DayOf(t) == DatePart(w)
  {
    match w
    case DateOnly(d) => At(d, 0)
    case DateTime(t) => t
  }

  /** The text `DD.MM.YYYY HH:MM`, as the day and the minute of the day it names. */
  datatype Stamp = Stamp(date: Day, minute: int)

  function StampOf(t: Instant): (s: Stamp)
    ensures s.date == DayOf(t) && 0 <= s.minute < 1440
  {
    Stamp(DayOf(t), SecondOfDay(t) / 60)
  }

  /** Minutes since midnight of day 0 of the time a stamp shows. */
  function Minutes(s: Stamp): int {
    s.date * 1440 + s.minute
  }

  /** A stamp shows its instant to the minute, seconds dropped. */
  lemma StampTruncates(t: Instant)
    ensures Minutes(StampOf(t)) == t / 60
  {
    var d, s := DayOf(t), SecondOfDay(t);
    assert t == d * 86400 + s;
    assert t == (d * 1440 + s / 60) * 60 + s % 60;
  }

  /**
   * Every value renders with a time of day: a date has a `strftime` too,
   * so a date renders as its midnight, `HH:MM` being `00:00`.
   */
  function Render(w: When): (s: Stamp)
    ensures s.date == DatePart(w)
    ensures w.DateOnly? ==> s.minute == 0
  {
    StampOf(AsInstant(w))
  }

  datatype RawEvent = RawEvent(
    summary: Option<string>,
    description: Option<string>,
    location: Option<string>,
    dtstart: Option<When>,
    dtend: Option<When>,
    rrule: string)  // the empty text stands for no RRULE property

  datatype Component = VEvent(event: RawEvent) | OtherComponent(name: string)

  datatype Occurrence = Occurrence(
    start: Stamp,
    end: Stamp,
    summary: string,
    description: string,
    location: string,
    isRecurring: bool)

  /** The expansion window, `now` less two months to `now` plus one year. */
  datatype Window = Window(start: Instant, end: Instant)

  /** The recurrence rule engine: rule text, anchor and window to instants, or a failure. */
  type RuleEngine = (string, Instant, Window) -> Option<seq<Instant>>

  const Untitled: string := "Без названия"

  /** The event lies wholly after the window's last day or before its first. */
  predicate OutsideWindow(s: When, t: When, w: Window) {
    DatePart(s) > DayOf(w.end) || DatePart(t) < DayOf(w.start)
  }

  /** The occurrence an event gives when it is not (or cannot be) expanded. */
  function PlainOccurrence(e: RawEvent, s: When, t: When): Occurrence {
    Occurrence(Render(s), Render(t), e.summary.GetOr(Untitled),
               e.description.GetOr(""), e.location.GetOr(""), false)
  }

  /**
   * The occurrence at instant `occ` of a recurring event: it ends the
   * event's own duration later when both bounds carry a time of day, and
   * at the event's own end otherwise.
   */
  function Instance(e: RawEvent, s: When, t: When, occ: Instant): Occurrence {
    var end := if s.DateTime? && t.DateTime? then StampOf(occ + (t.at - s.at)) else Render(t);
    Occurrence(StampOf(occ), end, e.summary.GetOr(Untitled),
               e.description.GetOr(""), e.location.GetOr(""), true)
  }

  function Instances(e: RawEvent, s: When, t: When, occs: seq<Instant>): (r: seq<Occurrence>)
    ensures |r| == |occs|
    ensures forall i :: 0 <= i < |occs| ==> r[i] == Instance(e, s, t, occs[i])
  {
    seq(|occs|, i requires 0 <= i < |occs| => Instance(e, s, t, occs[i]))
  }

  /**
   * The occurrences of one event, or `None` when the event lacks DTSTART or
   * DTEND: reading the missing property raises, and nothing inside the loop
   * catches that.
   */
  function ExpandEvent(e: RawEvent, w: Window, engine: RuleEngine): (r: Option<seq<Occurrence>>)
    ensures r.None? <==> e.dtstart.None? || e.dtend.None?
    ensures r.Some? && e.rrule == "" ==> |r.value| <= 1
  {
    if e.dtstart.None? || e.dtend.None? then None
    else
      var s, t := e.dtstart.value, e.dtend.value;
      if OutsideWindow(s, t, w) then Some([])
      else if e.rrule == "" then Some([PlainOccurrence(e, s, t)])
      else match engine(e.rrule, AsInstant(s), w)
        case None => Some([PlainOccurrence(e, s, t)])
        case Some(occs) => Some(Instances(e, s, t, occs))
  }

  function ExpandComponent(c: Component, w: Window, engine: RuleEngine): Option<seq<Occurrence>> {
    match c
    case OtherComponent(_) => Some([])
    case VEvent(e) => ExpandEvent(e, w, engine)
  }

  /** The occurrences gathered so far, and whether the walk reached the end. */
  datatype Expansion = Expansion(events: seq<Occurrence>, complete: bool)

  /**
   * The walk over the components in order: each component's occurrences
   * are appended, and the first component whose expansion raises stops the
   * walk with what was gathered before it.
   */
  function ExpandAll(cs: seq<Component>, w: Window, engine: RuleEngine): Expansion
    decreases |cs|
  {
    if cs == [] then Expansion([], true)
    else
      var before := ExpandAll(cs[..|cs| - 1], w, engine);
      if !before.complete then before
      else match ExpandComponent(cs[|cs| - 1], w, engine)
        case None => Expansion(before.events, false)
        case Some(os) => Expansion(before.events + os, true)
  }

  // ---------------------------------------------------------------- events

  /**
   * An event whose start day is after the window or whose end day is before
   * it gives nothing, even when it has a recurrence rule.
   */
  lemma OutsideWindowGivesNothing(e: RawEvent, w: Window, engine: RuleEngine)
    requires e.dtstart.Some? && e.dtend.Some?
    requires DatePart(e.dtstart.value) > DayOf(w.end) || DatePart(e.dtend.value) < DayOf(w.start)
    ensures ExpandEvent(e, w, engine) == Some([])
  {
  }

  /**
   * An event inside the window with no rule, or whose rule fails, gives
   * exactly one occurrence: not recurring, with its own rendered start and end.
   */
  lemma PlainEventGivesOne(e: RawEvent, w: Window, engine: RuleEngine)
    requires e.dtstart.Some? && e.dtend.Some?
    requires !OutsideWindow(e.dtstart.value, e.dtend.value, w)
    requires e.rrule == "" || engine(e.rrule, AsInstant(e.dtstart.value), w).None?
    ensures ExpandEvent(e, w, engine).Some?
    ensures var os := ExpandEvent(e, w, engine).value;
      |os| == 1 && !os[0].isRecurring
      && os[0].start == Render(e.dtstart.value) && os[0].end == Render(e.dtend.value)
      && os[0].summary == e.summary.GetOr(Untitled)
      && os[0].description == e.description.GetOr("") && os[0].location == e.location.GetOr("")
  {
  }

  /**
   * An event inside the window whose rule expands gives one recurring
   * occurrence per instant, in the engine's order, each with the event's
   * text and its end at the same distance from its start as the event's.
   */
  lemma RuleEventGivesInstances(e: RawEvent, w: Window, engine: RuleEngine)
    requires e.dtstart.Some? && e.dtend.Some? && e.rrule != ""
    requires !OutsideWindow(e.dtstart.value, e.dtend.value, w)
    requires engine(e.rrule, AsInstant(e.dtstart.value), w).Some?
    ensures ExpandEvent(e, w, engine).Some?
    ensures var occs := engine(e.rrule, AsInstant(e.dtstart.value), w).value;
      var os := ExpandEvent(e, w, engine).value;
      var s, t := e.dtstart.value, e.dtend.value;
      |os| == |occs|
      && forall i :: 0 <= i < |os| ==>
        os[i].isRecurring && os[i].start == StampOf(occs[i])
        && os[i].summary == e.summary.GetOr(Untitled)
        && os[i].description == e.description.GetOr("")
        && os[i].location == e.location.GetOr("")
        && (s.DateTime? && t.DateTime? ==> os[i].end == StampOf(occs[i] + (AsInstant(t) - AsInstant(s))))
        && (s.DateOnly? || t.DateOnly? ==> os[i].end == Render(t))
  {
  }

  /**
   * When the event lasts a whole number of minutes, every recurring
   * occurrence, wherever it starts, shows the event's own duration between
   * its start and end stamps.
   */
  lemma InstanceKeepsDuration(e: RawEvent, s: When, t: When, occ: Instant)
    requires s.DateTime? && t.DateTime?
    requires (t.at - s.at) % 60 == 0
    ensures var o := Instance(e, s, t, occ);
      Minutes(o.end) - Minutes(o.start) == (t.at - s.at) / 60
  {
    var d := t.at - s.at;
    var o := Instance(e, s, t, occ);
    assert o.start == StampOf(occ) && o.end == StampOf(occ + d);
    StampTruncates(occ);
    StampTruncates(occ + d);
    WholeMinutesAdd(occ, d);
  }

  lemma WholeMinutesAdd(a: int, d: int)
    requires d % 60 == 0
    ensures (a + d) / 60 == a / 60 + d / 60
  {
    var k := d / 60;
    assert d == 60 * k;
    assert a + d == 60 * (a / 60 + k) + a % 60;
  }

  // ------------------------------------------------------------------ feed

  /** A walk that stopped stays stopped: later components add nothing. */
  lemma {:induction false} StopIsFinal(cs: seq<Component>, j: nat, w: Window, engine: RuleEngine)
    requires j <= |cs| && !ExpandAll(cs[..j], w, engine).complete
    ensures ExpandAll(cs, w, engine) == ExpandAll(cs[..j], w, engine)
    decreases |cs| - j
  {
    if j < |cs| {
      assert cs[..j + 1][..j] == cs[..j];
      StopIsFinal(cs, j + 1, w, engine);
    } else {
      assert cs[..j] == cs;
    }
  }

  /**
   * The walk read from the front: the first component's occurrences come
   * first and the rest of the feed is processed after them; a first
   * component that raises stops everything.
   */
  lemma {:induction false} ExpandCons(c: Component, cs: seq<Component>, w: Window, engine: RuleEngine)
    ensures ExpandAll([c] + cs, w, engine) ==
      match ExpandComponent(c, w, engine)
      case None => Expansion([], false)
      case Some(os) =>
        var rest := ExpandAll(cs, w, engine);
        Expansion(os + rest.events, rest.complete)
    decreases |cs|
  {
    if cs == [] {
      assert ([c] + cs)[..0] == [];
      assert [c] + cs == [c];
    } else {
      var all := [c] + cs;
      assert all[..|all| - 1] == [c] + cs[..|cs| - 1];
      assert all[|all| - 1] == cs[|cs| - 1];
      ExpandCons(c, cs[..|cs| - 1], w, engine);
      match ExpandComponent(c, w, engine)
      case None =>
      case Some(os) =>
        var before := ExpandAll(cs[..|cs| - 1], w, engine);
        if before.complete {
          match ExpandComponent(cs[|cs| - 1], w, engine)
          case None =>
          case Some(more) =>
            assert os + (before.events + more) == (os + before.events) + more;
        }
    }
  }

  /** The walk reaches the end exactly when no VEVENT lacks DTSTART or DTEND. */
  lemma {:induction false} CompleteIff(cs: seq<Component>, w: Window, engine: RuleEngine)
    ensures ExpandAll(cs, w, engine).complete <==>
      forall k :: 0 <= k < |cs| ==> ExpandComponent(cs[k], w, engine).Some?
    decreases |cs|
  {
    if cs != [] {
      var init := cs[..|cs| - 1];
      CompleteIff(init, w, engine);
      assert forall k :: 0 <= k < |init| ==> init[k] == cs[k];
    }
  }

  /** Every occurrence gathered comes from the expansion of one component of the feed. */
  lemma {:induction false} OccurrenceHasSource(cs: seq<Component>, w: Window, engine: RuleEngine, o: Occurrence)
    requires o in ExpandAll(cs, w, engine).events
    ensures exists k :: 0 <= k < |cs| && ExpandComponent(cs[k], w, engine).Some?
                        && o in ExpandComponent(cs[k], w, engine).value
    decreases |cs|
  {
    var init := cs[..|cs| - 1];
    var before := ExpandAll(init, w, engine);
    if o in before.events {
      OccurrenceHasSource(init, w, engine, o);
      var k :| 0 <= k < |init| && ExpandComponent(init[k], w, engine).Some?
               && o in ExpandComponent(init[k], w, engine).value;
      assert init[k] == cs[k];
    } else {
      assert ExpandComponent(cs[|cs| - 1], w, engine).Some?;
    }
  }

  /**
   * A recurring occurrence in the result comes from a VEVENT that has a
   * rule, lies in the window, and whose rule the engine expanded.
   */
  lemma RecurringHasRule(cs: seq<Component>, w: Window, engine: RuleEngine, o: Occurrence)
    requires o in ExpandAll(cs, w, engine).events && o.isRecurring
    ensures exists k :: 0 <= k < |cs| && cs[k].VEvent? && cs[k].event.rrule != ""
                        && cs[k].event.dtstart.Some?
                        && engine(cs[k].event.rrule, AsInstant(cs[k].event.dtstart.value), w).Some?
  {
    OccurrenceHasSource(cs, w, engine, o);
    var k :| 0 <= k < |cs| && ExpandComponent(cs[k], w, engine).Some?
             && o in ExpandComponent(cs[k], w, engine).value;
    assert cs[k].VEvent?;
  }

  // ---------------------------------------------------------------- method

  /**
   * The loop of `load_schedule` over the walked components: appends each
   * event's occurrences to `events`, and stops with what it has when an
   * event lacks DTSTART or DTEND.
   */
  method ExpandFeed(cs: seq<Component>, w: Window, engine: RuleEngine)
    returns (events: seq<Occurrence>, complete: bool)
    ensures Expansion(events, complete) == ExpandAll(cs, w, engine)
    ensures complete <==> forall k :: 0 <= k < |cs| ==> ExpandComponent(cs[k], w, engine).Some?
  {
    CompleteIff(cs, w, engine);
    events := [];
    var i := 0;
    while i < |cs|
      invariant 0 <= i <= |cs|
      invariant ExpandAll(cs[..i], w, engine) == Expansion(events, true)
    {
      assert cs[..i + 1][..i] == cs[..i];
      if cs[i].VEvent? {
        var e := cs[i].event;
        if e.dtstart.None? || e.dtend.None? {
          StopIsFinal(cs, i + 1, w, engine);
          return events, false;
        }
        var s, t := e.dtstart.value, e.dtend.value;
        if !OutsideWindow(s, t, w) {
          var expanded := if e.rrule == "" then None else engine(e.rrule, AsInstant(s), w);
          if expanded.None? {
            events := events + [PlainOccurrence(e, s, t)];
          } else {
            var occs := expanded.value;
            ghost var before := events;
            var j := 0;
            while j < |occs|
              invariant 0 <= j <= |occs|
              invariant events == before + Instances(e, s, t, occs[..j])
            {
              events := events + [Instance(e, s, t, occs[j])];
              j := j + 1;
              assert Instances(e, s, t, occs[..j]) == Instances(e, s, t, occs[..j - 1]) + [Instance(e, s, t, occs[j - 1])];
            }
            assert occs[..j] == occs;
          }
        }
      }
      i := i + 1;
    }
    assert cs[..i] == cs;
    complete := true;
  }
}
