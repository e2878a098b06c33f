/**
 * The schedule resolver of `DataManager`: which catalog events a view shows
 * (`filteredEvents`), the week buckets (`getWeekEvents`), the per-day markers
 * (`hasExam`, `hasImportant`, `hasNote`), the subject lists and class counts
 * behind the attendance screen, the widget export selection and the load-time
 * ordering of the catalog.
 *
 * The resolver reads a snapshot of the manager's state: the catalog in load
 * order, the show-lectures preference, the group selection and the room and
 * time overrides keyed by event id. It never re-sorts: the order of its
 * results is the catalog's.
 */
module Resolver {
  import opened Wrappers
  import opened Text
  import opened Calendar
  import opened Models
  import Ics

  datatype ViewMode = MyPlan | FullPlan

  /** One selected group per axis, and the digit of the Java course group. */
  datatype GroupSelection = GroupSelection(lab: string, proj: string, komp: string, lang: string, java: string)

  /** The selection a fresh install starts with. */
  const DefaultGroups: GroupSelection := GroupSelection("L1", "P1", "Lk1", "Lek1", "1")

  /** What the resolver reads from the manager. */
  datatype Schedule = Schedule(
    events: seq<AppEvent>,
    showLectures: bool,
    groups: GroupSelection,
    customRooms: map<string, string>,
    customTimes: map<string, CustomTimeInfo>)

  /** The arguments of `filteredEvents`: an optional day, the view mode and the search text. */
  datatype Query = Query(date: Option<int>, mode: ViewMode, searchText: string)

  // ---------------------------------------------------------------------------
  // The per-event rules
  // ---------------------------------------------------------------------------

  /** The day filter: no day, or the event's `date` falls on that calendar day. */
  predicate OnDay(e: AppEvent, date: Option<int>) {
    date.None? || SameDay(e.date, date.value)
  }

  /** What the show-lectures preference hides: a lecture by type or by group. */
  predicate IsLecture(e: AppEvent) {
    e.classType == Some(Wyklad) || e.group == Some("W")
  }

  /**
   * The search filter: an empty text matches everything; otherwise the
   * lower-cased text occurs in the lower-cased title, lecturer or base room.
   */
  predicate MatchesSearch(e: AppEvent, searchText: string) {
    searchText == [] ||
    var search := Lower(searchText);
    Contains(Lower(e.title), search) || Contains(Lower(e.lecturer), search) || Contains(Lower(e.room), search)
  }

  /** A subject of the Java course: "java" occurs in its lower-cased title. */
  predicate IsJavaSubject(title: string) {
    Contains(Lower(title), "java")
  }

  /** The MyPlan group rule for a feed event. */
  predicate PassesGroupRule(e: AppEvent, g: GroupSelection) {
    if e.classType.None? || e.group.None? then true
    else
      var t, gr := e.classType.value, e.group.value;
      if gr == "W" then true
      else if IsJavaSubject(e.title) then
        && !(t == LabK && gr != "Lk" + g.java)
        && !(t == Proj && gr != "P" + g.java)
        && !(t == Lab && gr != g.lab)
      else
        && !(t == Lab && gr != g.lab)
        && !(t == Proj && gr != g.proj)
        && !(t == LabK && gr != g.komp)
        && !(t == Lek && gr != g.lang)
  }

  /**
   * The group the selection asks for, per class type: the lab axis always,
   * the Java digit for project and computer-lab groups of a Java subject, the
   * plain axes otherwise, and nothing for lectures, unknown types and the
   * language classes of a Java subject.
   */
  function SelectedGroup(t: ClassType, java: bool, g: GroupSelection): Option<string> {
    match t
    case Lab => Some(g.lab)
    case Proj => Some(if java then "P" + g.java else g.proj)
    case LabK => Some(if java then "Lk" + g.java else g.komp)
    case Lek => if java then None else Some(g.lang)
    case Wyklad => None
    case Unknown => None
  }

  /**
   * The group rule lets an event through exactly when it has no type or
   * group, its group is the lecture group "W", its type has no selected
   * group, or its group is the selected one.
   */
  lemma GroupRuleIsSelection(e: AppEvent, g: GroupSelection)
    ensures PassesGroupRule(e, g) <==>
      || e.classType.None? || e.group.None? || e.group.value == "W"
      || SelectedGroup(e.classType.value, IsJavaSubject(e.title), g).None?
      || e.group.value == SelectedGroup(e.classType.value, IsJavaSubject(e.title), g).value
  {
  }

  /** A Java computer-lab group "Lk3" shows for Java digit "3" and not for "2", whatever the plain selection. */
  lemma JavaComputerLabExample(e: AppEvent, g: GroupSelection)
    requires IsJavaSubject(e.title)
    requires e.classType == Some(LabK) && e.group == Some("Lk3")
    ensures PassesGroupRule(e, g.(java := "3"))
    ensures !PassesGroupRule(e, g.(java := "2"))
  {
    assert "Lk3" == "Lk" + "3";
    assert ("Lk" + "2")[2] != "Lk3"[2];
    assert "Lk3"[0] != "W"[0];
  }

  /** Whether `filteredEvents` keeps a catalog event, before the overrides apply. */
  predicate Keep(s: Schedule, q: Query, e: AppEvent) {
    && OnDay(e, q.date)
    && (s.showLectures || !IsLecture(e))
    && MatchesSearch(e, q.searchText)
    && (e.isUserCreated || q.mode == FullPlan || PassesGroupRule(e, s.groups))
  }

  /**
   * The event as shown: the custom room and the custom time window replace
   * the base ones when an override exists for its id. Nothing else changes.
   */
  function ApplyOverrides(e: AppEvent, rooms: map<string, string>, times: map<string, CustomTimeInfo>): (r: AppEvent)
    ensures r.(room := e.room, startTime := e.startTime, endTime := e.endTime) == e
    ensures r.room == (if e.id in rooms then rooms[e.id] else e.room)
    ensures e.id in times ==> r.startTime == times[e.id].startTime && r.endTime == times[e.id].endTime
    ensures e.id !in times ==> r.startTime == e.startTime && r.endTime == e.endTime
  {
    var withRoom := if e.id in rooms then e.(room := rooms[e.id]) else e;
    if e.id in times then withRoom.(startTime := times[e.id].startTime, endTime := times[e.id].endTime)
    else withRoom
  }

  // ---------------------------------------------------------------------------
  // filteredEvents
  // ---------------------------------------------------------------------------

  /**
   * The kept events of `events`, in order, with their overrides applied.
   * Every result is on the asked day, is no hidden lecture, and comes from a
   * kept catalog event.
   */
  function Filter(s: Schedule, q: Query, events: seq<AppEvent>): seq<AppEvent> {
    if |events| == 0 then []
    else
      var n := |events| - 1;
      var e := events[n];
      Filter(s, q, events[..n]) + (if Keep(s, q, e) then [ApplyOverrides(e, s.customRooms, s.customTimes)] else [])
  }

  /**
   * Every result of `Filter` is on the asked day, is no hidden lecture, and
   * is the overridden form of a kept catalog event; there are no more
   * results than catalog events.
   */
  lemma {:induction false} FilterSound(s: Schedule, q: Query, events: seq<AppEvent>)
    ensures |Filter(s, q, events)| <= |events|
    ensures forall x :: x in Filter(s, q, events) ==> OnDay(x, q.date) && (s.showLectures || !IsLecture(x))
    ensures forall x :: x in Filter(s, q, events) ==>
      exists e :: e in events && Keep(s, q, e) && x == ApplyOverrides(e, s.customRooms, s.customTimes)
  {
    if |events| > 0 {
      var n := |events| - 1;
      FilterSound(s, q, events[..n]);
      assert forall e :: e in events[..n] ==> e in events;
    }
  }

  /** `filteredEvents(forDate:mode:searchText:)`. */
  function FilteredEvents(s: Schedule, q: Query): seq<AppEvent> {
    Filter(s, q, s.events)
  }

  /** The catalog positions `Filter` keeps, in increasing order. */
  function KeptIndices(s: Schedule, q: Query, events: seq<AppEvent>): seq<int> {
    if |events| == 0 then []
    else
      var n := |events| - 1;
      KeptIndices(s, q, events[..n]) + (if Keep(s, q, events[n]) then [n] else [])
  }

  /** The kept positions are in range, increasing, and exactly those whose event passes `Keep`. */
  lemma {:induction false} KeptIndicesSpec(s: Schedule, q: Query, events: seq<AppEvent>)
    ensures var idx := KeptIndices(s, q, events);
      && (forall k :: 0 <= k < |idx| ==> 0 <= idx[k] < |events|)
      && (forall k, l :: 0 <= k < l < |idx| ==> idx[k] < idx[l])
      && (forall i :: 0 <= i < |events| ==> (Keep(s, q, events[i]) <==> i in idx))
  {
    if |events| > 0 {
      var n := |events| - 1;
      var init := events[..n];
      KeptIndicesSpec(s, q, init);
      var idx0 := KeptIndices(s, q, init);
      forall i | 0 <= i < n ensures Keep(s, q, events[i]) <==> i in idx0 {
        assert init[i] == events[i];
      }
    }
  }

  /**
   * `Filter` is an order-preserving selection: its k-th result is the
   * overridden catalog event at the k-th kept position.
   */
  lemma {:induction false} FilterIsKeptInOrder(s: Schedule, q: Query, events: seq<AppEvent>)
    ensures var idx, r := KeptIndices(s, q, events), Filter(s, q, events);
      && |idx| == |r|
      && (forall k :: 0 <= k < |idx| ==>
            0 <= idx[k] < |events| && r[k] == ApplyOverrides(events[idx[k]], s.customRooms, s.customTimes))
  {
    KeptIndicesSpec(s, q, events);
    if |events| > 0 {
      var n := |events| - 1;
      var init := events[..n];
      FilterIsKeptInOrder(s, q, init);
      KeptIndicesSpec(s, q, init);
      var idx0 := KeptIndices(s, q, init);
      var r0 := Filter(s, q, init);
      var idx, r := KeptIndices(s, q, events), Filter(s, q, events);
      forall k | 0 <= k < |idx0|
        ensures r[k] == ApplyOverrides(events[idx[k]], s.customRooms, s.customTimes)
      {
        assert idx[k] == idx0[k] && r[k] == r0[k];
        assert init[idx0[k]] == events[idx0[k]];
      }
    }
  }

  /** Every kept catalog event is shown. */
  lemma FilterComplete(s: Schedule, q: Query, events: seq<AppEvent>, i: int)
    requires 0 <= i < |events| && Keep(s, q, events[i])
    ensures ApplyOverrides(events[i], s.customRooms, s.customTimes) in Filter(s, q, events)
  {
    FilterIsKeptInOrder(s, q, events);
    KeptIndicesSpec(s, q, events);
    var idx := KeptIndices(s, q, events);
    var k :| 0 <= k < |idx| && idx[k] == i;
  }

  /** A catalog event is shown, overridden, exactly when it passes `Keep`. */
  lemma KeptEventShown(s: Schedule, q: Query, e: AppEvent)
    requires e in s.events && Keep(s, q, e)
    ensures ApplyOverrides(e, s.customRooms, s.customTimes) in FilteredEvents(s, q)
  {
    var i :| 0 <= i < |s.events| && s.events[i] == e;
    FilterComplete(s, q, s.events, i);
  }

  /** User-created events skip the group rule: in either mode they show when the three common filters pass. */
  lemma UserEventsBypassGroupRule(s: Schedule, q: Query, e: AppEvent)
    requires e in s.events && e.isUserCreated
    requires OnDay(e, q.date) && (s.showLectures || !IsLecture(e)) && MatchesSearch(e, q.searchText)
    ensures ApplyOverrides(e, s.customRooms, s.customTimes) in FilteredEvents(s, q)
  {
    KeptEventShown(s, q, e);
  }

  /** A lecture group "W" always passes the group rule in MyPlan. */
  lemma LectureGroupAlwaysShown(s: Schedule, q: Query, e: AppEvent)
    requires e in s.events && e.group == Some("W") && q.mode == MyPlan
    requires OnDay(e, q.date) && s.showLectures && MatchesSearch(e, q.searchText)
    ensures ApplyOverrides(e, s.customRooms, s.customTimes) in FilteredEvents(s, q)
  {
    KeptEventShown(s, q, e);
  }

  /** MyPlan shows a subset of what FullPlan shows for the same day and search. */
  lemma MyPlanWithinFullPlan(s: Schedule, date: Option<int>, searchText: string)
    ensures forall x :: x in FilteredEvents(s, Query(date, MyPlan, searchText)) ==>
      x in FilteredEvents(s, Query(date, FullPlan, searchText))
  {
    FilterSound(s, Query(date, MyPlan, searchText), s.events);
    forall x | x in FilteredEvents(s, Query(date, MyPlan, searchText))
      ensures x in FilteredEvents(s, Query(date, FullPlan, searchText))
    {
      var e :| e in s.events && Keep(s, Query(date, MyPlan, searchText), e)
               && x == ApplyOverrides(e, s.customRooms, s.customTimes);
      KeptEventShown(s, Query(date, FullPlan, searchText), e);
    }
  }

  /** A search only narrows the view: whatever it shows is shown without it. */
  lemma SearchNarrows(s: Schedule, date: Option<int>, mode: ViewMode, searchText: string)
    ensures forall x :: x in FilteredEvents(s, Query(date, mode, searchText)) ==>
      x in FilteredEvents(s, Query(date, mode, ""))
  {
    FilterSound(s, Query(date, mode, searchText), s.events);
    forall x | x in FilteredEvents(s, Query(date, mode, searchText))
      ensures x in FilteredEvents(s, Query(date, mode, ""))
    {
      var e :| e in s.events && Keep(s, Query(date, mode, searchText), e)
               && x == ApplyOverrides(e, s.customRooms, s.customTimes);
      KeptEventShown(s, Query(date, mode, ""), e);
    }
  }

  /** The events are in non-decreasing order of start time. */
  predicate SortedByStart(xs: seq<AppEvent>) {
    forall i, j :: 0 <= i < j < |xs| ==> xs[i].startTime <= xs[j].startTime
  }

  /**
   * Without time overrides, a catalog sorted by start gives sorted results:
   * the selection keeps the catalog order.
   */
  lemma FilteredSortedWithoutTimeOverrides(s: Schedule, q: Query)
    requires SortedByStart(s.events)
    requires forall e :: e in s.events ==> e.id !in s.customTimes
    ensures SortedByStart(FilteredEvents(s, q))
  {
    FilterIsKeptInOrder(s, q, s.events);
    KeptIndicesSpec(s, q, s.events);
    var idx, r := KeptIndices(s, q, s.events), FilteredEvents(s, q);
    forall i, j | 0 <= i < j < |r| ensures r[i].startTime <= r[j].startTime {
      assert s.events[idx[i]] in s.events && s.events[idx[j]] in s.events;
    }
  }

  /**
   * The results are not re-sorted after the overrides: a custom time can put
   * an event after a later one.
   */
  lemma TimeOverrideCanReorder()
    ensures var a := AppEvent("a", "A", "", "", 0, 100, 200, None, None, None, true, None);
            var b := AppEvent("b", "B", "", "", 0, 150, 250, None, None, None, true, None);
            var s := Schedule([a, b], true, DefaultGroups, map[], map["a" := CustomTimeInfo(300, 400)]);
            SortedByStart(s.events) && !SortedByStart(FilteredEvents(s, Query(None, FullPlan, "")))
  {
    var a := AppEvent("a", "A", "", "", 0, 100, 200, None, None, None, true, None);
    var b := AppEvent("b", "B", "", "", 0, 150, 250, None, None, None, true, None);
    var s := Schedule([a, b], true, DefaultGroups, map[], map["a" := CustomTimeInfo(300, 400)]);
    var q := Query(None, FullPlan, "");
    assert [a, b][..1] == [a];
    assert [a][..0] == [];
    assert "b" != "a";
    assert Keep(s, q, a) && Keep(s, q, b);
    var a1 := ApplyOverrides(a, s.customRooms, s.customTimes);
    assert a1 == a.(startTime := 300, endTime := 400);
    assert ApplyOverrides(b, s.customRooms, s.customTimes) == b;
    assert Filter(s, q, [a]) == [a1];
    var r := FilteredEvents(s, q);
    assert r == [a.(startTime := 300, endTime := 400), b];
    assert r[0].startTime > r[1].startTime;
  }

  // ---------------------------------------------------------------------------
  // getWeekEvents
  // ---------------------------------------------------------------------------

  /** Day `i` (0 is Monday) of the week of `date`. */
  function WeekDay(date: int, i: int): int {
    AddDays(GetMonday(date), i)
  }

  /** The day query `getWeekEvents` makes for day `i`. */
  function DayEvents(s: Schedule, date: int, i: int, mode: ViewMode, searchText: string): seq<AppEvent> {
    FilteredEvents(s, Query(Some(WeekDay(date, i)), mode, searchText))
  }

  /** Different days of one week start at different instants. */
  lemma WeekDayStartsDistinct(date: int, i: int, j: int)
    requires i != j
    ensures StartOfDay(WeekDay(date, i)) != StartOfDay(WeekDay(date, j))
  {
    AddDaysShiftsDay(GetMonday(date), i);
    AddDaysShiftsDay(GetMonday(date), j);
  }

  /**
   * `getWeekEvents`: the seven days from the Monday of `date`'s week, each
   * keyed by its first second and mapped to its non-empty day list. Days with
   * nothing are absent, and every listed event belongs to its key's day.
   */
  method GetWeekEvents(s: Schedule, date: int, mode: ViewMode, searchText: string)
    returns (week: map<int, seq<AppEvent>>)
    ensures |week| <= 7
    ensures forall k :: k in week ==>
      exists i :: 0 <= i < 7 && k == StartOfDay(WeekDay(date, i))
                && week[k] == DayEvents(s, date, i, mode, searchText) && week[k] != []
    ensures forall i :: 0 <= i < 7 && DayEvents(s, date, i, mode, searchText) != [] ==>
      StartOfDay(WeekDay(date, i)) in week
    ensures forall k, x :: k in week && x in week[k] ==> StartOfDay(x.date) == k
  {
    week := map[];
    for i := 0 to 7
      invariant |week| <= i
      invariant forall k :: k in week ==>
        exists d :: 0 <= d < i && k == StartOfDay(WeekDay(date, d))
                 && week[k] == DayEvents(s, date, d, mode, searchText) && week[k] != []
      invariant forall d :: 0 <= d < i && DayEvents(s, date, d, mode, searchText) != [] ==>
        StartOfDay(WeekDay(date, d)) in week
    {
      var day := WeekDay(date, i);
      var dailyEvents := FilteredEvents(s, Query(Some(day), mode, searchText));
      if dailyEvents != [] {
        var key := StartOfDay(day);
        forall d | 0 <= d < i ensures StartOfDay(WeekDay(date, d)) != key {
          WeekDayStartsDistinct(date, d, i);
        }
        week := week[key := dailyEvents];
      }
    }
    forall k, x | k in week && x in week[k] ensures StartOfDay(x.date) == k {
      var d :| 0 <= d < 7 && k == StartOfDay(WeekDay(date, d)) && week[k] == DayEvents(s, date, d, mode, searchText);
      FilterSound(s, Query(Some(WeekDay(date, d)), mode, searchText), s.events);
      assert SameDay(x.date, WeekDay(date, d));
    }
  }

  // ---------------------------------------------------------------------------
  // Day markers
  // ---------------------------------------------------------------------------

  /** The MyPlan list of one day, without search. */
  function MyDay(s: Schedule, day: int): seq<AppEvent> {
    FilteredEvents(s, Query(Some(day), MyPlan, ""))
  }

  /** `hasExam(on:)`: some event of the day is marked as an exam or is a user exam. */
  predicate HasExam(s: Schedule, markedExams: set<string>, day: int) {
    exists x :: x in MyDay(s, day) && (x.id in markedExams || x.category == Some(Exam))
  }

  /** `hasImportant(on:)`: some event of the day is marked important. */
  predicate HasImportant(s: Schedule, markedImportant: set<string>, day: int) {
    exists x :: x in MyDay(s, day) && x.id in markedImportant
  }

  /** `hasNote(on:)`: some event of the day has a non-empty note. */
  predicate HasNote(s: Schedule, notes: map<string, string>, day: int) {
    exists x :: x in MyDay(s, day) && x.id in notes && notes[x.id] != ""
  }

  /** The exam marker, read back on the catalog: a kept event of that day is an exam. */
  lemma HasExamOnCatalog(s: Schedule, markedExams: set<string>, day: int)
    ensures HasExam(s, markedExams, day) <==>
      exists e :: e in s.events && Keep(s, Query(Some(day), MyPlan, ""), e)
               && (e.id in markedExams || e.category == Some(Exam))
  {
    var q := Query(Some(day), MyPlan, "");
    FilterSound(s, q, s.events);
    if e :| e in s.events && Keep(s, q, e) && (e.id in markedExams || e.category == Some(Exam)) {
      KeptEventShown(s, q, e);
      assert ApplyOverrides(e, s.customRooms, s.customTimes) in MyDay(s, day);
    }
  }

  /** The importance marker, read back on the catalog. */
  lemma HasImportantOnCatalog(s: Schedule, markedImportant: set<string>, day: int)
    ensures HasImportant(s, markedImportant, day) <==>
      exists e :: e in s.events && Keep(s, Query(Some(day), MyPlan, ""), e) && e.id in markedImportant
  {
    var q := Query(Some(day), MyPlan, "");
    FilterSound(s, q, s.events);
    if e :| e in s.events && Keep(s, q, e) && e.id in markedImportant {
      KeptEventShown(s, q, e);
      assert ApplyOverrides(e, s.customRooms, s.customTimes) in MyDay(s, day);
    }
  }

  /** The note marker, read back on the catalog; an empty note does not count. */
  lemma HasNoteOnCatalog(s: Schedule, notes: map<string, string>, day: int)
    ensures HasNote(s, notes, day) <==>
      exists e :: e in s.events && Keep(s, Query(Some(day), MyPlan, ""), e)
               && e.id in notes && notes[e.id] != ""
  {
    var q := Query(Some(day), MyPlan, "");
    FilterSound(s, q, s.events);
    if e :| e in s.events && Keep(s, q, e) && e.id in notes && notes[e.id] != "" {
      KeptEventShown(s, q, e);
      assert ApplyOverrides(e, s.customRooms, s.customTimes) in MyDay(s, day);
    }
  }

  // ---------------------------------------------------------------------------
  // Subjects, lecturers and class counts
  // ---------------------------------------------------------------------------

  /** `lecturers(for:)`, as the set its text joins: named lecturers of the subject's feed events. */
  function Lecturers(events: seq<AppEvent>, subject: string): (r: set<string>)
    ensures Ics.NoLecturer !in r
    ensures forall l :: l in r <==>
      exists e :: e in events && e.title == subject && !e.isUserCreated && e.lecturer != Ics.NoLecturer && e.lecturer == l
  {
    set e | e in events && e.title == subject && !e.isUserCreated && e.lecturer != Ics.NoLecturer :: e.lecturer
  }

  /** `lecturer(for:type:)`: the same, restricted to one raw class type. */
  function LecturersOfType(events: seq<AppEvent>, subject: string, rawType: string): (r: set<string>)
    ensures r <= Lecturers(events, subject)
    ensures forall l :: l in r <==>
      exists e :: e in events && e.title == subject && e.classType.Some? && e.classType.value.Raw() == rawType
                  && !e.isUserCreated && e.lecturer != Ics.NoLecturer && e.lecturer == l
  {
    set e | e in events && e.title == subject && e.classType.Some? && e.classType.value.Raw() == rawType
            && !e.isUserCreated && e.lecturer != Ics.NoLecturer :: e.lecturer
  }

  /** Inserts `x` into a strictly sorted list unless it is there already. */
  function InsertSorted(x: string, xs: seq<string>): (r: seq<string>)
    requires StrictlySorted(xs)
    ensures StrictlySorted(r)
    ensures forall y :: y in r <==> y == x || y in xs
  {
    if |xs| == 0 then [x]
    else if x == xs[0] then xs
    else
      LessTotal(x, xs[0]);
      if Less(x, xs[0]) then
        assert forall j :: 0 <= j < |xs| ==> Less(x, xs[j]) by {
          forall j | 0 < j < |xs| ensures Less(x, xs[j]) {
            LessTransitive(x, xs[0], xs[j]);
          }
        }
        [x] + xs
      else
        var rest := InsertSorted(x, xs[1..]);
        assert forall y :: y in rest ==> Less(xs[0], y);
        [xs[0]] + rest
  }

  /** `uniqueSubjects`: the titles of feed events, each once, in string order. */
  function UniqueSubjects(events: seq<AppEvent>): (r: seq<string>)
    ensures StrictlySorted(r)
    ensures forall t :: t in r <==> exists e :: e in events && !e.isUserCreated && e.title == t
  {
    if |events| == 0 then []
    else
      var n := |events| - 1;
      var init := UniqueSubjects(events[..n]);
      assert forall e :: e in events <==> e in events[..n] || e == events[n];
      if events[n].isUserCreated then init else InsertSorted(events[n].title, init)
  }

  /** The class types in the order of their raw codes ("Inne" < "L" < "Lek" < "Lk" < "P" < "W"). */
  const TypeOrder: seq<ClassType> := [Unknown, Lab, Lek, LabK, Proj, Wyklad]

  /** The raw codes of `ts` are strictly increasing. */
  predicate SortedByRaw(ts: seq<ClassType>) {
    forall i, j :: 0 <= i < j < |ts| ==> Less(ts[i].Raw(), ts[j].Raw())
  }

  /** `TypeOrder` holds every type once, sorted by raw code. */
  lemma TypeOrderSorted()
    ensures SortedByRaw(TypeOrder)
    ensures forall t: ClassType :: t in TypeOrder
  {
    forall t: ClassType ensures t in TypeOrder {
      match t
      case Unknown => assert TypeOrder[0] == t;
      case Lab => assert TypeOrder[1] == t;
      case Lek => assert TypeOrder[2] == t;
      case LabK => assert TypeOrder[3] == t;
      case Proj => assert TypeOrder[4] == t;
      case Wyklad => assert TypeOrder[5] == t;
    }
    assert Less("Inne", "L") && Less("L", "Lek") && Less("Lek", "Lk") && Less("Lk", "P") && Less("P", "W");
    forall i, j | 0 <= i < j < |TypeOrder| ensures Less(TypeOrder[i].Raw(), TypeOrder[j].Raw()) {
      ChainStep(TypeOrder, i, j);
    }
  }

  /** Raw codes that increase step by step increase between any two positions. */
  lemma {:induction false} ChainStep(ts: seq<ClassType>, i: int, j: int)
    requires forall k :: 0 <= k < |ts| - 1 ==> Less(ts[k].Raw(), ts[k + 1].Raw())
    requires 0 <= i < j < |ts|
    ensures Less(ts[i].Raw(), ts[j].Raw())
    decreases j - i
  {
    if j > i + 1 {
      ChainStep(ts, i, j - 1);
      LessTransitive(ts[i].Raw(), ts[j - 1].Raw(), ts[j].Raw());
    }
  }

  /** A feed event of `subject` has class type `t`. */
  predicate HasType(events: seq<AppEvent>, subject: string, t: ClassType) {
    exists e :: e in events && !e.isUserCreated && e.title == subject && e.classType == Some(t)
  }

  /** The elements of `ts` that `subject` has, in the order of `ts`. */
  function TypesAmong(ts: seq<ClassType>, events: seq<AppEvent>, subject: string): (r: seq<ClassType>)
    requires SortedByRaw(ts)
    ensures SortedByRaw(r)
    ensures forall t :: t in r <==> t in ts && HasType(events, subject, t)
  {
    if |ts| == 0 then []
    else
      var rest := TypesAmong(ts[1..], events, subject);
      assert forall t :: t in rest ==> Less(ts[0].Raw(), t.Raw());
      if HasType(events, subject, ts[0]) then [ts[0]] + rest else rest
  }

  /**
   * The class types of `subject` as `subjectTypes` lists them: every type a
   * feed event of the subject has, once, sorted by raw code; empty for a
   * subject with none.
   */
  function TypesOf(events: seq<AppEvent>, subject: string): (r: seq<ClassType>)
    ensures SortedByRaw(r)
    ensures forall t :: t in r <==> HasType(events, subject, t)
  {
    TypeOrderSorted();
    TypesAmong(TypeOrder, events, subject)
  }

  /** The event is a class of `subject` with raw type `rawType` that passes the group rule. */
  predicate CountedClass(e: AppEvent, g: GroupSelection, subject: string, rawType: string) {
    e.title == subject && e.classType.Some? && e.classType.value.Raw() == rawType && PassesGroupRule(e, g)
  }

  /** `totalClassesCount(for:type:)`: the classes of one subject and type in the selected groups. */
  function TotalClassesCount(events: seq<AppEvent>, g: GroupSelection, subject: string, rawType: string): (n: nat)
    ensures n <= |events|
  {
    if |events| == 0 then 0
    else
      var k := |events| - 1;
      TotalClassesCount(events[..k], g, subject, rawType) + (if CountedClass(events[k], g, subject, rawType) then 1 else 0)
  }

  /** How many of `xs` are of `subject` and raw type `rawType`. */
  function CountSubjectType(xs: seq<AppEvent>, subject: string, rawType: string): nat {
    if |xs| == 0 then 0
    else
      var k := |xs| - 1;
      CountSubjectType(xs[..k], subject, rawType)
      + (if xs[k].title == subject && xs[k].classType.Some? && xs[k].classType.value.Raw() == rawType then 1 else 0)
  }

  /**
   * The class count is the number of classes of that subject and type in the
   * whole MyPlan view with lectures shown. The catalog may hold user events:
   * they have no class type, so they add to neither count.
   */
  lemma {:induction false} TotalClassesCountIsMyPlanCount(s: Schedule, events: seq<AppEvent>, subject: string, rawType: string)
    requires s.showLectures
    requires forall i :: 0 <= i < |events| && events[i].isUserCreated ==> events[i].classType.None?
    ensures TotalClassesCount(events, s.groups, subject, rawType)
         == CountSubjectType(Filter(s, Query(None, MyPlan, ""), events), subject, rawType)
  {
    if |events| > 0 {
      var k := |events| - 1;
      TotalClassesCountIsMyPlanCount(s, events[..k], subject, rawType);
      MyPlanCountStep(s, events, subject, rawType);
    }
  }

  /** The last event, a feed event or an untyped user event, adds the same to the class count and to the MyPlan count. */
  lemma MyPlanCountStep(s: Schedule, events: seq<AppEvent>, subject: string, rawType: string)
    requires s.showLectures
    requires |events| > 0 && (events[|events| - 1].isUserCreated ==> events[|events| - 1].classType.None?)
    ensures var k, q := |events| - 1, Query(None, MyPlan, "");
      var c := if CountedClass(events[k], s.groups, subject, rawType) then 1 else 0;
      && TotalClassesCount(events, s.groups, subject, rawType) == TotalClassesCount(events[..k], s.groups, subject, rawType) + c
      && CountSubjectType(Filter(s, q, events), subject, rawType) == CountSubjectType(Filter(s, q, events[..k]), subject, rawType) + c
  {
    var k, q := |events| - 1, Query(None, MyPlan, "");
    var x := events[k];
    var init := Filter(s, q, events[..k]);
    var c := if CountedClass(x, s.groups, subject, rawType) then 1 else 0;
    assert Keep(s, q, x) == PassesGroupRule(x, s.groups);
    if Keep(s, q, x) {
      var y := ApplyOverrides(x, s.customRooms, s.customTimes);
      assert y.title == x.title && y.classType == x.classType;
      assert Filter(s, q, events) == init + [y];
      assert (init + [y])[..|init|] == init;
      assert CountSubjectType(init + [y], subject, rawType) == CountSubjectType(init, subject, rawType) + c;
    } else {
      assert Filter(s, q, events) == init;
      assert c == 0;
    }
  }

  /** The absences recorded for one subject and raw type. */
  function AbsenceCount(absences: map<string, map<string, seq<AbsenceRecord>>>, subject: string, rawType: string): nat {
    if subject in absences && rawType in absences[subject] then |absences[subject][rawType]| else 0
  }

  /** Classes of `subject` summed over the types `ts`. */
  function TypeClassSum(events: seq<AppEvent>, g: GroupSelection, subject: string, ts: seq<ClassType>): nat {
    if |ts| == 0 then 0
    else
      var k := |ts| - 1;
      TypeClassSum(events, g, subject, ts[..k]) + TotalClassesCount(events, g, subject, ts[k].Raw())
  }

  /** Absences of `subject` summed over the types `ts`. */
  function TypeAbsenceSum(absences: map<string, map<string, seq<AbsenceRecord>>>, subject: string, ts: seq<ClassType>): nat {
    if |ts| == 0 then 0
    else
      var k := |ts| - 1;
      TypeAbsenceSum(absences, subject, ts[..k]) + AbsenceCount(absences, subject, ts[k].Raw())
  }

  /** Classes of each subject over its own types. */
  function ClassSum(events: seq<AppEvent>, g: GroupSelection, subjects: seq<string>): nat {
    if |subjects| == 0 then 0
    else
      var k := |subjects| - 1;
      ClassSum(events, g, subjects[..k]) + TypeClassSum(events, g, subjects[k], TypesOf(events, subjects[k]))
  }

  /** Absences of each subject over its own types. */
  function AbsenceSum(events: seq<AppEvent>, absences: map<string, map<string, seq<AbsenceRecord>>>,
                      subjects: seq<string>): nat {
    if |subjects| == 0 then 0
    else
      var k := |subjects| - 1;
      AbsenceSum(events, absences, subjects[..k]) + TypeAbsenceSum(absences, subjects[k], TypesOf(events, subjects[k]))
  }

  /**
   * The integer part of `totalAttendanceStats`: the classes and the absences
   * of every subject, summed over the class types that subject has.
   */
  method TotalAttendanceStats(events: seq<AppEvent>, g: GroupSelection,
                              absences: map<string, map<string, seq<AbsenceRecord>>>)
    returns (total: nat, absent: nat)
    ensures total == ClassSum(events, g, UniqueSubjects(events))
    ensures absent == AbsenceSum(events, absences, UniqueSubjects(events))
  {
    var subjects := UniqueSubjects(events);
    total, absent := 0, 0;
    for i := 0 to |subjects|
      invariant total == ClassSum(events, g, subjects[..i])
      invariant absent == AbsenceSum(events, absences, subjects[..i])
    {
      var subject := subjects[i];
      var types := TypesOf(events, subject);
      var t, a := 0, 0;
      for j := 0 to |types|
        invariant t == TypeClassSum(events, g, subject, types[..j])
        invariant a == TypeAbsenceSum(absences, subject, types[..j])
      {
        assert types[..j + 1][..j] == types[..j];
        t := t + TotalClassesCount(events, g, subject, types[j].Raw());
        a := a + AbsenceCount(absences, subject, types[j].Raw());
      }
      assert types[..|types|] == types;
      assert subjects[..i + 1][..i] == subjects[..i];
      total, absent := total + t, absent + a;
    }
    assert subjects[..|subjects|] == subjects;
  }

  /** Absences recorded under a type the subject does not have are not counted. */
  lemma {:induction false} StrayAbsencesIgnored(absences: map<string, map<string, seq<AbsenceRecord>>>,
                                                subject: string, ts: seq<ClassType>, rawType: string, extra: seq<AbsenceRecord>)
    requires forall t :: t in ts ==> t.Raw() != rawType
    ensures var more := absences[subject := (if subject in absences then absences[subject] else map[])[rawType := extra]];
            TypeAbsenceSum(more, subject, ts) == TypeAbsenceSum(absences, subject, ts)
  {
    if |ts| > 0 {
      var k := |ts| - 1;
      assert ts[k] in ts;
      assert forall t :: t in ts[..k] ==> t in ts;
      StrayAbsencesIgnored(absences, subject, ts[..k], rawType, extra);
    }
  }

  // ---------------------------------------------------------------------------
  // Selections of the MyPlan list
  // ---------------------------------------------------------------------------

  /** The elements of `xs` that satisfy `p`, in order. */
  function Where(xs: seq<AppEvent>, p: AppEvent -> bool): (r: seq<AppEvent>)
    ensures |r| <= |xs|
    ensures forall x {:trigger x in r} :: x in r <==> x in xs && p(x)
  {
    if |xs| == 0 then []
    else
      var k := |xs| - 1;
      assert forall x :: x in xs <==> x in xs[..k] || x == xs[k];
      Where(xs[..k], p) + (if p(xs[k]) then [xs[k]] else [])
  }

  /** Filtering a concatenation filters each part: the kept events keep their order and their repetitions. */
  lemma {:induction false} WhereAppend(xs: seq<AppEvent>, ys: seq<AppEvent>, p: AppEvent -> bool)
    ensures Where(xs + ys, p) == Where(xs, p) + Where(ys, p)
    decreases |ys|
  {
    if |ys| > 0 {
      var k := |ys| - 1;
      var zs := xs + ys;
      WhereAppend(xs, ys[..k], p);
      assert zs[..|zs| - 1] == xs + ys[..k];
    } else {
      assert xs + ys == xs;
    }
  }

  /** A single event is kept exactly when it passes. */
  lemma WhereSingle(x: AppEvent, p: AppEvent -> bool)
    ensures Where([x], p) == if p(x) then [x] else []
  {
    assert [x][..0] == [];
  }

  /** Swift's `prefix(n)`. */
  function Prefix(xs: seq<AppEvent>, n: nat): (r: seq<AppEvent>)
    ensures |r| <= n && |r| <= |xs|
    ensures |xs| > n ==> |r| == n
    ensures r == xs[..|r|]
    ensures |xs| <= n ==> r == xs
    ensures forall x :: x in r ==> x in xs
  {
    if |xs| <= n then xs else xs[..n]
  }

  /** The whole MyPlan list, without day or search. */
  function MyPlanList(s: Schedule): seq<AppEvent> {
    FilteredEvents(s, Query(None, MyPlan, ""))
  }

  /**
   * What `exportWidgetData` hands the widget: the first 20 MyPlan events that
   * have not ended and are not cancelled.
   */
  function WidgetExport(s: Schedule, cancelled: set<string>, now: int): seq<AppEvent> {
    Prefix(Where(MyPlanList(s), (x: AppEvent) => x.endTime > now && x.id !in cancelled), 20)
  }

  /** The export holds at most 20 events, each a MyPlan event that has not ended and is not cancelled. */
  lemma WidgetExportSound(s: Schedule, cancelled: set<string>, now: int)
    ensures |WidgetExport(s, cancelled, now)| <= 20
    ensures forall x :: x in WidgetExport(s, cancelled, now) ==> x in MyPlanList(s) && x.endTime > now && x.id !in cancelled
  {
  }

  /** The export is the qualifying MyPlan events in list order, cut after the twentieth. */
  lemma WidgetExportIsFirstQualifying(s: Schedule, cancelled: set<string>, now: int)
    ensures var q := Where(MyPlanList(s), (x: AppEvent) => x.endTime > now && x.id !in cancelled);
      WidgetExport(s, cancelled, now) == q[..if |q| <= 20 then |q| else 20]
  {
  }

  /** When at most 20 events qualify, the export holds every one of them. */
  lemma WidgetExportComplete(s: Schedule, cancelled: set<string>, now: int)
    requires |Where(MyPlanList(s), (x: AppEvent) => x.endTime > now && x.id !in cancelled)| <= 20
    ensures forall x :: x in MyPlanList(s) && x.endTime > now && x.id !in cancelled ==> x in WidgetExport(s, cancelled, now)
  {
  }

  // ---------------------------------------------------------------------------
  // The catalog order
  // ---------------------------------------------------------------------------

  /** Inserts `x` into a list sorted by start, before the first event that does not start earlier. */
  function InsertByStart(x: AppEvent, xs: seq<AppEvent>): seq<AppEvent> {
    if |xs| == 0 then [x]
    else if x.startTime <= xs[0].startTime then [x] + xs
    else [xs[0]] + InsertByStart(x, xs[1..])
  }

  /** The insertion adds exactly `x`. */
  lemma {:induction false} InsertByStartPermutes(x: AppEvent, xs: seq<AppEvent>)
    ensures multiset(InsertByStart(x, xs)) == multiset(xs) + multiset{x}
  {
    if |xs| > 0 && x.startTime > xs[0].startTime {
      InsertByStartPermutes(x, xs[1..]);
      assert xs == [xs[0]] + xs[1..];
    }
  }

  /** A start no later than `x` and every listed event stays no later than every inserted one. */
  lemma {:induction false} InsertByStartBounded(x: AppEvent, xs: seq<AppEvent>, start: int)
    requires start <= x.startTime
    requires forall i :: 0 <= i < |xs| ==> start <= xs[i].startTime
    ensures forall i :: 0 <= i < |InsertByStart(x, xs)| ==> start <= InsertByStart(x, xs)[i].startTime
  {
    if |xs| > 0 && x.startTime > xs[0].startTime {
      InsertByStartBounded(x, xs[1..], start);
      var r := InsertByStart(x, xs);
      forall i | 0 <= i < |r| ensures start <= r[i].startTime {
        if i > 0 {
          assert r[i] == InsertByStart(x, xs[1..])[i - 1];
        }
      }
    }
  }

  /** The insertion keeps a sorted list sorted. */
  lemma {:induction false} InsertByStartSorted(x: AppEvent, xs: seq<AppEvent>)
    requires SortedByStart(xs)
    ensures SortedByStart(InsertByStart(x, xs))
  {
    var r := InsertByStart(x, xs);
    if |xs| == 0 || x.startTime <= xs[0].startTime {
      forall i, j | 0 <= i < j < |r| ensures r[i].startTime <= r[j].startTime {
        assert r[j] == xs[j - 1];
        if i > 0 {
          assert r[i] == xs[i - 1];
        }
      }
    } else {
      var rest := InsertByStart(x, xs[1..]);
      InsertByStartSorted(x, xs[1..]);
      InsertByStartBounded(x, xs[1..], xs[0].startTime);
      forall i, j | 0 <= i < j < |r| ensures r[i].startTime <= r[j].startTime {
        assert r[j] == rest[j - 1];
        if i > 0 {
          assert r[i] == rest[i - 1];
        }
      }
    }
  }

  /**
   * The load-time order of the catalog (`sorted { $0.startTime < $1.startTime }`):
   * insertion sort by start.
   */
  function SortByStart(xs: seq<AppEvent>): seq<AppEvent> {
    if |xs| == 0 then [] else InsertByStart(xs[0], SortByStart(xs[1..]))
  }

  /** The catalog order is sorted by start and a permutation of the feed and user events. */
  lemma {:induction false} SortByStartSpec(xs: seq<AppEvent>)
    ensures SortedByStart(SortByStart(xs))
    ensures multiset(SortByStart(xs)) == multiset(xs)
  {
    if |xs| > 0 {
      SortByStartSpec(xs[1..]);
      InsertByStartPermutes(xs[0], SortByStart(xs[1..]));
      InsertByStartSorted(xs[0], SortByStart(xs[1..]));
      assert xs == [xs[0]] + xs[1..];
    }
  }

  /** The events of `xs` that start at instant `t`, in list order. */
  function StartingAt(xs: seq<AppEvent>, t: int): seq<AppEvent> {
    if |xs| == 0 then []
    else (if xs[0].startTime == t then [xs[0]] else []) + StartingAt(xs[1..], t)
  }

  /**
   * Inserting `x` leaves the events starting at any instant in their order,
   * with `x` placed before those that start when it does.
   */
  lemma {:induction false} InsertByStartStable(x: AppEvent, xs: seq<AppEvent>, t: int)
    ensures StartingAt(InsertByStart(x, xs), t) == StartingAt([x] + xs, t)
  {
    if |xs| > 0 && x.startTime > xs[0].startTime {
      var y, rest := xs[0], InsertByStart(x, xs[1..]);
      InsertByStartStable(x, xs[1..], t);
      assert ([y] + rest)[1..] == rest;
      assert ([x] + xs)[1..] == xs;
      assert ([x] + xs[1..])[1..] == xs[1..];
      // `y` starts before `x`, so at most one of them starts at `t`.
    }
  }

  /**
   * The catalog order is stable: events that start at the same instant come
   * out in the order they were given.
   */
  lemma {:induction false} SortByStartStable(xs: seq<AppEvent>, t: int)
    ensures StartingAt(SortByStart(xs), t) == StartingAt(xs, t)
  {
    if |xs| > 0 {
      SortByStartStable(xs[1..], t);
      InsertByStartStable(xs[0], SortByStart(xs[1..]), t);
      assert ([xs[0]] + SortByStart(xs[1..]))[1..] == SortByStart(xs[1..]);
    }
  }
}
