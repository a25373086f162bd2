/**
 * The schedule cache's decisions (`load_schedule` lines before and after
 * the walk, and `refresh_schedule`): the expansion window around `now`, the
 * time-to-live test and what a fetch yields. The cache's two fields live in
 * `App.CalendarApp`.
 */
module Schedule {
  import opened Wrappers
  import opened Dates
  import opened Events

  const TtlSeconds: int := 3600

  /**
   * `timedelta.seconds`: the seconds-within-the-day part of an elapsed
   * time, not the total. A timedelta keeps its seconds in [0, 86400) with
   * whole days split off towards minus infinity, which is Euclidean `%`.
   */
  function SecondsComponent(elapsed: int): (s: int)
    ensures 0 <= s < SecondsPerDay
    ensures 0 <= elapsed < SecondsPerDay ==> s == elapsed
    ensures exists days :: elapsed == days * SecondsPerDay + s
  {
    var s := elapsed % SecondsPerDay;
    assert elapsed == (elapsed / SecondsPerDay) * SecondsPerDay + s;
    s
  }

  /** The cache serves its list: it holds events, has a time stamp, and the test passes. */
  predicate CacheHit(cached: seq<Occurrence>, last: Option<Instant>, now: Instant) {
    cached != [] && last.Some? && SecondsComponent(now - last.value) < TtlSeconds
  }

  /** The window of the walk: two months before `now` to one year after it. */
  function WindowAround(now: Instant): (w: Window)
    ensures DayOf(w.start) < DayOf(now) < DayOf(w.end)
    ensures SecondOfDay(w.start) == SecondOfDay(now) == SecondOfDay(w.end)
  {
    ShiftBackIsEarlier(now, 2);
    ShiftForwardIsLater(now, 12);
    Window(ShiftInstant(now, -2), ShiftInstant(now, 12))
  }

  /**
   * What a fetch yields: nothing and failure when the feed cannot be
   * fetched or parsed, otherwise the walk over its components.
   */
  function Fetch(feed: Option<seq<Component>>, now: Instant, engine: RuleEngine): Expansion {
    match feed
    case None => Expansion([], false)
    case Some(cs) => ExpandAll(cs, WindowAround(now), engine)
  }

  /** The fetch and the walk: nothing gathered when the feed fails, the walk's result otherwise. */
  method FetchFeed(feed: Option<seq<Component>>, now: Instant, engine: RuleEngine)
    returns (events: seq<Occurrence>, complete: bool)
    ensures Expansion(events, complete) == Fetch(feed, now, engine)
  {
    match feed
    case None =>
      events, complete := [], false;
    case Some(cs) =>
      events, complete := ExpandFeed(cs, WindowAround(now), engine);
  }

  /** The list `load_schedule` returns: the cached one on a hit, otherwise what the fetch gathered. */
  function Served(cached: seq<Occurrence>, last: Option<Instant>, now: Instant,
                  feed: Option<seq<Component>>, engine: RuleEngine): (events: seq<Occurrence>)
    ensures CacheHit(cached, last, now) ==> events == cached != []
    ensures feed.None? && !CacheHit(cached, last, now) ==> events == []
  {
    if CacheHit(cached, last, now) then cached else Fetch(feed, now, engine).events
  }

  /** The schedule cache: the list it serves and the time it was filled, if any. */
  datatype Cache = Cache(events: seq<Occurrence>, stamp: Option<Instant>)

  /**
   * The cache after a load: kept on a hit and after a failed fetch or a
   * walk cut short; the gathered list stamped `now` after a completed walk.
   */
  function CacheAfter(cached: seq<Occurrence>, last: Option<Instant>, now: Instant,
                      feed: Option<seq<Component>>, engine: RuleEngine): Cache
  {
    var fetched := Fetch(feed, now, engine);
    if CacheHit(cached, last, now) || !fetched.complete then Cache(cached, last)
    else Cache(fetched.events, Some(now))
  }

  /**
   * A load that served a non-empty list from the cache or from a completed
   * walk leaves a cache that serves the same list to a second load at the
   * same instant, whatever the feed then holds.
   */
  lemma LoadAgainServesSame(cached: seq<Occurrence>, last: Option<Instant>, now: Instant,
                            feed: Option<seq<Component>>, engine: RuleEngine,
                            feed2: Option<seq<Component>>, engine2: RuleEngine)
    requires Served(cached, last, now, feed, engine) != []
    requires CacheHit(cached, last, now) || Fetch(feed, now, engine).complete
    ensures var c := CacheAfter(cached, last, now, feed, engine);
      CacheHit(c.events, c.stamp, now)
      && Served(c.events, c.stamp, now, feed2, engine2) == Served(cached, last, now, feed, engine)
  {
    if !CacheHit(cached, last, now) {
      assert SecondsComponent(now - now) == 0;
    }
  }

  /** A failed fetch, or a walk that stopped early, leaves the cache as it was. */
  lemma IncompleteLoadKeepsCache(cached: seq<Occurrence>, last: Option<Instant>, now: Instant,
                                 feed: Option<seq<Component>>, engine: RuleEngine)
    requires !Fetch(feed, now, engine).complete
    ensures CacheAfter(cached, last, now, feed, engine) == Cache(cached, last)
  {
  }

  /** An event on the current day is never dropped by the window filter. */
  lemma TodayIsInWindow(s: When, t: When, now: Instant)
    requires DatePart(s) <= DayOf(now) <= DatePart(t)
    ensures !OutsideWindow(s, t, WindowAround(now))
  {
  }

  /** A non-empty cache stamped less than an hour ago is served. */
  lemma FreshCacheHits(cached: seq<Occurrence>, last: Instant, now: Instant)
    requires cached != [] && last <= now < last + TtlSeconds
    ensures CacheHit(cached, Some(last), now)
  {
  }

  /**
   * Only the seconds within the day are compared: a cache stamped `days`
   * whole days and less than an hour ago is served, however old it is.
   */
  lemma {:induction false} WholeDaysAreIgnored(cached: seq<Occurrence>, last: Instant, now: Instant, days: nat)
    requires cached != []
    requires last + days * SecondsPerDay <= now < last + days * SecondsPerDay + TtlSeconds
    ensures CacheHit(cached, Some(last), now)
  {
    var r := now - last - days * SecondsPerDay;
    assert now - last == days * SecondsPerDay + r && 0 <= r < SecondsPerDay;
    assert (now - last) % SecondsPerDay == r;
  }

  /** A cache stamped an hour or more (and less than a day) ago is refetched. */
  lemma StaleCacheMisses(cached: seq<Occurrence>, last: Instant, now: Instant)
    requires last + TtlSeconds <= now < last + SecondsPerDay
    ensures !CacheHit(cached, Some(last), now)
  {
  }

  /** A clock set back by up to 23 hours makes the cache miss. */
  lemma ClockBackMisses(cached: seq<Occurrence>, last: Instant, now: Instant)
    requires last - (SecondsPerDay - TtlSeconds) <= now < last
    ensures !CacheHit(cached, Some(last), now)
  {
    assert SecondsComponent(now - last) == now - last + SecondsPerDay;
  }

  /** An empty list is never served: a fetch that found no events is repeated on every call. */
  lemma EmptyCacheMisses(last: Option<Instant>, now: Instant)
    ensures !CacheHit([], last, now)
  {
  }

  /** Invalidation clears both fields, so the next call fetches whatever the clock says. */
  lemma InvalidatedCacheMisses(cached: seq<Occurrence>, now: Instant)
    ensures !CacheHit(cached, None, now)
  {
  }

  /** A failed fetch or parse yields no occurrences and no completion. */
  lemma FailedFetchYieldsNothing(now: Instant, engine: RuleEngine)
    ensures Fetch(None, now, engine) == Expansion([], false)
  {
  }
}
