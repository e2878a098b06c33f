/**
 * The home-screen widget's timeline provider: from the data the app shares
 * (the exported events and the two mark lists) it picks what the single
 * timeline entry shows, under which header, and when the next refresh is due.
 */
module Widget {
  import opened Wrappers
  import opened Calendar
  import opened Models
  import opened Resolver

  /** The entry never shows more than two events. */
  const MaxShown: nat := 2
  /** With nothing shown, the timeline refreshes an hour later. */
  const FallbackRefresh: int := 3600

  const Today: string := "DZISIAJ"
  const Tomorrow: string := "JUTRO"
  const Free: string := "WOLNE"

  /**
   * What the provider reads from the shared store. A missing or undecodable
   * event list is `None`; a missing mark list is `None` too.
   */
  datatype SharedData = SharedData(
    events: Option<seq<AppEvent>>, exams: Option<seq<string>>, important: Option<seq<string>>)

  datatype Entry = Entry(date: int, events: seq<AppEvent>, title: string, exams: seq<string>, important: seq<string>)

  /** One entry, valid until `refreshAt`. */
  datatype Timeline = Timeline(entries: seq<Entry>, refreshAt: int)

  /** `placeholder(in:)`: no events under the "today" header. */
  function Placeholder(now: int): Entry {
    Entry(now, [], Today, [], [])
  }

  /** The decoded events that start today and have not ended. */
  function TodayEvents(upcoming: seq<AppEvent>, now: int): seq<AppEvent> {
    Where(upcoming, (e: AppEvent) => SameDay(e.startTime, now) && e.endTime > now)
  }

  /** The decoded events that start tomorrow, whatever their end. */
  function TomorrowEvents(upcoming: seq<AppEvent>, now: int): seq<AppEvent> {
    Where(upcoming, (e: AppEvent) => SameDay(e.startTime, AddDays(now, 1)))
  }

  /**
   * The three-way choice of `getTimeline`: today's remaining events, else
   * tomorrow's, else nothing; with no shared event list, nothing.
   */
  function Selection(shared: SharedData, now: int): (seq<AppEvent>, string) {
    match shared.events
    case None => ([], Free)
    case Some(upcoming) =>
      var today := TodayEvents(upcoming, now);
      if today != [] then (today, Today)
      else
        var tomorrow := TomorrowEvents(upcoming, now);
        if tomorrow != [] then (tomorrow, Tomorrow) else ([], Free)
  }

  /** `getTimeline(in:completion:)`. */
  function GetTimeline(shared: SharedData, now: int): Timeline {
    var (display, title) := Selection(shared, now);
    var shown := Prefix(display, MaxShown);
    var entry := Entry(now, shown, title, shared.exams.GetOr([]), shared.important.GetOr([]));
    Timeline([entry], if shown != [] then shown[0].endTime else now + FallbackRefresh)
  }

  /** Selecting with a test no element passes selects nothing. */
  lemma {:induction false} WhereNone(xs: seq<AppEvent>, p: AppEvent -> bool)
    requires forall x :: x in xs ==> !p(x)
    ensures Where(xs, p) == []
  {
    if |xs| > 0 {
      var k := |xs| - 1;
      assert xs[k] in xs;
      WhereNone(xs[..k], p);
    }
  }

  /** The single entry of the timeline. */
  function EntryOf(shared: SharedData, now: int): Entry {
    GetTimeline(shared, now).entries[0]
  }

  /**
   * The timeline holds one entry dated now; it shows at most two events and
   * the mark lists as read, an absent list read as empty.
   */
  lemma TimelineShape(shared: SharedData, now: int)
    ensures |GetTimeline(shared, now).entries| == 1
    ensures var e := EntryOf(shared, now);
      && e.date == now && |e.events| <= MaxShown
      && e.exams == (if shared.exams.Some? then shared.exams.value else [])
      && e.important == (if shared.important.Some? then shared.important.value else [])
  {
  }

  /**
   * With an event that starts today and has not ended, the header is "today"
   * and the entry shows the first two such events, in decoded order.
   */
  lemma TodayWins(upcoming: seq<AppEvent>, exams: Option<seq<string>>, important: Option<seq<string>>, now: int)
    requires exists x :: x in upcoming && SameDay(x.startTime, now) && x.endTime > now
    ensures var e := EntryOf(SharedData(Some(upcoming), exams, important), now);
      e.title == Today && e.events == Prefix(TodayEvents(upcoming, now), MaxShown)
  {
    var x :| x in upcoming && SameDay(x.startTime, now) && x.endTime > now;
    assert x in TodayEvents(upcoming, now);
  }

  /**
   * With nothing left today but an event that starts tomorrow, the header is
   * "tomorrow" and the entry shows the first two of tomorrow's events.
   */
  lemma TomorrowNext(upcoming: seq<AppEvent>, exams: Option<seq<string>>, important: Option<seq<string>>, now: int)
    requires forall x :: x in upcoming ==> !(SameDay(x.startTime, now) && x.endTime > now)
    requires exists x :: x in upcoming && SameDay(x.startTime, AddDays(now, 1))
    ensures var e := EntryOf(SharedData(Some(upcoming), exams, important), now);
      e.title == Tomorrow && e.events == Prefix(TomorrowEvents(upcoming, now), MaxShown)
  {
    var x :| x in upcoming && SameDay(x.startTime, AddDays(now, 1));
    assert x in TomorrowEvents(upcoming, now);
    WhereNone(upcoming, (e: AppEvent) => SameDay(e.startTime, now) && e.endTime > now);
  }

  /** The header is "free" exactly when no event is shown. */
  lemma FreeIffEmpty(shared: SharedData, now: int)
    ensures var e := EntryOf(shared, now);
      (e.title == Free <==> e.events == []) && e.title in {Today, Tomorrow, Free}
  {
    var (display, title) := Selection(shared, now);
    if display != [] {
      assert Prefix(display, MaxShown)[0] == display[0];
    }
  }

  /** Without a readable event list, or with nothing today or tomorrow, the entry is empty under "free". */
  lemma NothingToShow(shared: SharedData, now: int)
    requires shared.events.Some? ==>
      forall x :: x in shared.events.value ==>
        !(SameDay(x.startTime, now) && x.endTime > now) && !SameDay(x.startTime, AddDays(now, 1))
    ensures EntryOf(shared, now).title == Free && EntryOf(shared, now).events == []
  {
    if shared.events.Some? {
      var upcoming := shared.events.value;
      WhereNone(upcoming, (e: AppEvent) => SameDay(e.startTime, now) && e.endTime > now);
      WhereNone(upcoming, (e: AppEvent) => SameDay(e.startTime, AddDays(now, 1)));
    }
  }

  /** Every shown event is a decoded one that starts today and runs past now, or starts tomorrow. */
  lemma ShownEventsQualify(shared: SharedData, now: int)
    ensures var e := EntryOf(shared, now);
      forall x :: x in e.events ==>
        && shared.events.Some? && x in shared.events.value
        && (e.title == Today ==> SameDay(x.startTime, now) && x.endTime > now)
        && (e.title == Tomorrow ==> SameDay(x.startTime, AddDays(now, 1)))
  {
  }

  /**
   * What the app exports is what the widget shows from: every shown event is
   * a MyPlan event that was not cancelled and had not ended when the app
   * exported it, whatever the mark lists are.
   */
  lemma ShownEventsWereExported(
    s: Schedule, cancelled: set<string>, exportedAt: int,
    exams: Option<seq<string>>, important: Option<seq<string>>, now: int)
    ensures var shared := SharedData(Some(WidgetExport(s, cancelled, exportedAt)), exams, important);
      forall x :: x in EntryOf(shared, now).events ==>
        x in MyPlanList(s) && x.endTime > exportedAt && x.id !in cancelled
  {
    var shared := SharedData(Some(WidgetExport(s, cancelled, exportedAt)), exams, important);
    ShownEventsQualify(shared, now);
    WidgetExportSound(s, cancelled, exportedAt);
  }

  /**
   * The refresh is due when the first shown event ends, or an hour from now
   * when nothing is shown. It never falls in the past when the shown events
   * do not end before they start.
   */
  lemma RefreshTime(shared: SharedData, now: int)
    ensures var e := EntryOf(shared, now);
      GetTimeline(shared, now).refreshAt == if e.events != [] then e.events[0].endTime else now + FallbackRefresh
    ensures shared.events.Some? && (forall x :: x in shared.events.value ==> x.startTime <= x.endTime) ==>
      GetTimeline(shared, now).refreshAt > now
  {
    var e := EntryOf(shared, now);
    if e.events != [] {
      var x := e.events[0];
      assert x in e.events;
      ShownEventsQualify(shared, now);
      FreeIffEmpty(shared, now);
      if e.title == Tomorrow {
        AddDaysShiftsDay(now, 1);
      }
    }
  }

  /**
   * The placeholder pairs the "today" header with no events, which the
   * provider never produces: it is never mistaken for a real entry.
   */
  lemma PlaceholderNeverScheduled(shared: SharedData, now: int)
    ensures EntryOf(shared, now) != Placeholder(now)
  {
    FreeIffEmpty(shared, now);
  }
}
