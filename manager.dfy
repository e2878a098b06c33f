/**
 * The data manager: the catalog, the id-keyed tables, the settings, the data
 * shared with the widget and the system's running live activities, updated
 * in place by the manager's operations. What the app hands the notification
 * centre and ActivityKit is kept as two command logs.
 */
module Manager {
  import opened Wrappers
  import opened Calendar
  import opened Models
  import opened Ics
  import opened Resolver
  import opened Notifications
  import opened LiveActivity
  import opened Tables

  /**
   * The commands of `scheduleNotifications`: one cancellation of every
   * catalog id, then, looping over the upcoming batch, a request for each
   * event whose reminder instant is still ahead.
   */
  method ReminderPass(schedule: Schedule, cancelled: set<string>, now: int) returns (commands: seq<Command>)
    ensures commands == ReminderCommands(schedule, cancelled, now)
  {
    var upcoming := UpcomingBatch(schedule, cancelled, now);
    var requests := [];
    for i := 0 to |upcoming|
      invariant requests == Adds(ReminderRequests(upcoming[..i], now))
    {
      var event := upcoming[i];
      ReminderRequestsStep(upcoming, i, now);
      if event.startTime - ReminderLead > now {
        AddsAppend(ReminderRequests(upcoming[..i], now), ReminderRequest(event));
        requests := requests + [Add(ReminderRequest(event))];
      }
    }
    assert upcoming[..|upcoming|] == upcoming;
    commands := [Cancel(CatalogIds(schedule.events))] + requests;
  }

  /**
   * The commands of `scheduleMorningBriefings`: one cancellation of the seven
   * briefing slots, then, looping over the coming seven days, each day's
   * 07:00 briefing unless that instant has passed.
   */
  method BriefingPass(schedule: Schedule, cancelled: set<string>, now: int) returns (commands: seq<Command>)
    ensures commands == BriefingCommands(schedule, cancelled, now)
  {
    var requests := [];
    for i := 0 to 7
      invariant requests == Adds(BriefingRequests(schedule, cancelled, now, i))
    {
      var targetDate := At0700(AddDays(now, i));
      BriefingRequestsStep(schedule, cancelled, now, i);
      if targetDate >= now {
        var dayEvents := BriefingDay(schedule, cancelled, now, i);
        var request := Request(BriefingId(i), BriefingContent(dayEvents), TriggerMinute(targetDate));
        assert request == BriefingRequest(schedule, cancelled, now, i);
        AddsAppend(BriefingRequests(schedule, cancelled, now, i), request);
        requests := requests + [Add(request)];
      }
    }
    commands := [Cancel(BriefingIds())] + requests;
  }

  /** The ends of `manageLiveActivity` when live activities are switched off: every running one. */
  method EndAll(running: seq<LiveClassAttributes>) returns (commands: seq<ActivityCommand>)
    ensures commands == EndCommands(running)
  {
    commands := [];
    for i := 0 to |running|
      invariant commands == EndCommands(running[..i])
    {
      assert running[..i + 1] == running[..i] + [running[i]];
      EndCommandsAppend(running[..i], running[i]);
      commands := commands + [End(running[i])];
    }
    assert running[..|running|] == running;
  }

  /**
   * The ends of `manageLiveActivity`'s loop: every running activity that is
   * over, or that shows another class than the current one.
   */
  method EndStale(running: seq<LiveClassAttributes>, now: int, current: Option<AppEvent>)
    returns (commands: seq<ActivityCommand>)
    ensures commands == EndCommands(Ending(running, now, current))
  {
    commands := [];
    for i := 0 to |running|
      invariant commands == EndCommands(Ending(running[..i], now, current))
    {
      var activity := running[i];
      assert running[..i + 1][..i] == running[..i];
      if now >= activity.endTime || current.None? || activity.className != current.value.title {
        EndCommandsAppend(Ending(running[..i], now, current), activity);
        commands := commands + [End(activity)];
      }
    }
    assert running[..|running|] == running;
  }

  /**
   * The decision of one `manageLiveActivity` pass and the commands it hands
   * ActivityKit: with live activities off, end every running one; otherwise
   * end the stale ones and start the current class when nothing shows it.
   */
  method TickOf(enabled: bool, now: int, today: seq<AppEvent>, cancelled: set<string>,
                running: seq<LiveClassAttributes>) returns (tick: Tick, commands: seq<ActivityCommand>)
    ensures tick == LiveTick(enabled, now, today, cancelled, running)
    ensures commands == TickCommands(tick)
  {
    if !enabled {
      commands := EndAll(running);
      tick := Tick(running, None);
    } else {
      var current := CurrentEvent(today, cancelled, now);
      commands := EndStale(running, now, current);
      var ends := Ending(running, now, current);
      if current.Some? && !Showing(running, current.value.title) {
        var attributes := AttributesOf(current.value);
        commands := commands + [Start(attributes)];
        tick := Tick(ends, Some(attributes));
      } else {
        tick := Tick(ends, None);
      }
    }
  }

  /** The widget's shared store: what `exportWidgetData` writes and the timeline provider reads. */
  class WidgetStore {
    var events: seq<AppEvent>
    var exams: set<string>
    var important: set<string>

    constructor(events: seq<AppEvent>, exams: set<string>, important: set<string>)
      ensures this.events == events && this.exams == exams && this.important == important
    {
      this.events, this.exams, this.important := events, exams, important;
    }
  }

  /** The notification centre, as the ordered log of every request and cancellation it is handed. */
  class NotificationCenter {
    var log: seq<Command>

    constructor(log: seq<Command>)
      ensures this.log == log
    {
      this.log := log;
    }

    /** The requests the centre holds after the whole log. */
    function PendingRequests(): map<string, Request>
      reads this
    {
      Pending(log)
    }
  }

  /** ActivityKit: the live activities it runs and the log of every end and start it is handed. */
  class ActivityCenter {
    var running: seq<LiveClassAttributes>
    var log: seq<ActivityCommand>

    constructor(running: seq<LiveClassAttributes>)
      ensures this.running == running && log == []
    {
      this.running, log := running, [];
    }
  }

  class DataManager {
    /** The events read from the bundled feed, which never changes. */
    var feedEvents: seq<AppEvent>
    /** The user's own events, as stored. */
    var userEvents: seq<AppEvent>
    /** The catalog: the feed and the user events, sorted by start. */
    var allEvents: seq<AppEvent>
    var customNotes: map<string, string>
    var customRooms: map<string, string>
    var cancelledEvents: set<string>
    var absencesDates: AbsenceTable
    var absenceLimits: map<string, map<string, int>>
    var grades: map<string, seq<GradeEntry>>
    var archives: seq<SemesterArchive>
    var markedExams: set<string>
    var markedImportant: set<string>
    var syllabuses: map<string, map<string, string>>
    var customTimes: map<string, CustomTimeInfo>
    var enableLiveActivities: bool
    var showLectures: bool
    var groups: GroupSelection
    const widget: WidgetStore
    const center: NotificationCenter
    const activityKit: ActivityCenter

    /** The resolver's view of the manager. */
    function Snapshot(): Schedule
      reads this
    {
      Schedule(allEvents, showLectures, groups, customRooms, customTimes)
    }

    /**
     * The widget's store holds the export of the current state: the first 20
     * MyPlan events that have not ended and are not cancelled, and the two
     * mark sets.
     */
    predicate WidgetInSync(now: int)
      reads this, widget
    {
      && widget.events == WidgetExport(Snapshot(), cancelledEvents, now)
      && widget.exams == markedExams
      && widget.important == markedImportant
    }

    /**
     * `init`: reads the feed, starts from empty tables and the default
     * settings (live activities on, lectures shown, the default groups), and
     * loads: the catalog is sorted, the notification centre receives the
     * reminder and briefing passes, and the widget's store the export.
     */
    constructor(lines: seq<string>, parseDate: string -> Option<int>, storedUserEvents: seq<AppEvent>,
                running: seq<LiveClassAttributes>, now: int)
      ensures feedEvents == Scan(lines, parseDate).events && userEvents == storedUserEvents
      ensures allEvents == SortByStart(feedEvents + userEvents)
      ensures (customNotes, customRooms, cancelledEvents, absencesDates, absenceLimits, grades, archives)
           == (map[], map[], {}, map[], map[], map[], [])
      ensures (markedExams, markedImportant, syllabuses, customTimes, enableLiveActivities, showLectures, groups)
           == ({}, {}, map[], map[], true, true, DefaultGroups)
      ensures WidgetInSync(now)
      ensures center.log == ReminderCommands(Snapshot(), cancelledEvents, now) + BriefingCommands(Snapshot(), cancelledEvents, now)
      ensures activityKit.running == running && activityKit.log == []
      ensures fresh(widget) && fresh(center) && fresh(activityKit)
    {
      var parsed := ParseIcs(lines, parseDate);
      feedEvents, userEvents := parsed, storedUserEvents;
      customNotes, customRooms, cancelledEvents := map[], map[], {};
      absencesDates, absenceLimits, grades, archives := map[], map[], map[], [];
      markedExams, markedImportant, syllabuses, customTimes := {}, {}, map[], map[];
      enableLiveActivities, showLectures, groups := true, true, DefaultGroups;
      var schedule := Schedule(SortByStart(parsed + storedUserEvents), true, DefaultGroups, map[], map[]);
      allEvents := schedule.events;
      var reminders := ReminderPass(schedule, {}, now);
      var briefings := BriefingPass(schedule, {}, now);
      widget := new WidgetStore(WidgetExport(schedule, {}, now), {}, {});
      center := new NotificationCenter(reminders + briefings);
      activityKit := new ActivityCenter(running);
    }

    /**
     * `loadData`: rebuilds the catalog from the feed and the user events,
     * sorted by start, reschedules the reminders and the briefings, and
     * exports to the widget. The tables it reloads from storage are the ones
     * in memory, which every operation saves.
     */
    method LoadData(now: int)
      modifies this`allEvents, widget, center
      ensures allEvents == SortByStart(feedEvents + userEvents)
      ensures WidgetInSync(now)
      ensures center.log == old(center.log) + ReminderCommands(Snapshot(), cancelledEvents, now) + BriefingCommands(Snapshot(), cancelledEvents, now)
    {
      allEvents := SortByStart(feedEvents + userEvents);
      ScheduleNotifications(now);
      ScheduleMorningBriefings(now);
      ExportWidgetData(now);
    }

    /** `exportWidgetData`: shares the first 20 upcoming MyPlan events and the marks with the widget. */
    method ExportWidgetData(now: int)
      modifies widget
      ensures WidgetInSync(now)
    {
      widget.events := WidgetExport(Snapshot(), cancelledEvents, now);
      widget.exams := markedExams;
      widget.important := markedImportant;
    }

    /**
     * `scheduleNotifications`: cancels every catalog id, then requests the
     * "starting soon" reminder of each of the first 50 upcoming MyPlan
     * events whose reminder instant is still ahead.
     */
    method ScheduleNotifications(now: int)
      modifies center
      ensures center.log == old(center.log) + ReminderCommands(Snapshot(), cancelledEvents, now)
    {
      var commands := ReminderPass(Snapshot(), cancelledEvents, now);
      center.log := center.log + commands;
    }

    /**
     * `scheduleMorningBriefings`: cancels the seven briefing slots, then
     * requests each day's 07:00 briefing for the coming seven days, skipping
     * a slot whose 07:00 has passed.
     */
    method ScheduleMorningBriefings(now: int)
      modifies center
      ensures center.log == old(center.log) + BriefingCommands(Snapshot(), cancelledEvents, now)
    {
      var commands := BriefingPass(Snapshot(), cancelledEvents, now);
      center.log := center.log + commands;
    }

    /** `scheduleCustomNotif`: one request at the minute of `date`, when `date` is after now. */
    method ScheduleCustomNotif(id: string, title: string, body: string, date: int, now: int)
      modifies center
      ensures center.log == old(center.log) + CustomNotif(id, title, body, date, now)
    {
      if date > now {
        center.log := center.log + [Add(Request(id, Content(title, body), TriggerMinute(date)))];
      }
    }

    /**
     * `manageLiveActivity`: ends the activities the tick ends and starts the
     * current class's activity when none shows it; ActivityKit then runs the
     * survivors and the started one.
     */
    method ManageLiveActivity(now: int)
      modifies activityKit
      ensures var t := LiveTick(enableLiveActivities, now, MyDay(Snapshot(), now), cancelledEvents, old(activityKit.running));
        && activityKit.running == AfterTick(old(activityKit.running), t)
        && activityKit.log == old(activityKit.log) + TickCommands(t)
    {
      var tick, commands := TickOf(enableLiveActivities, now, MyDay(Snapshot(), now), cancelledEvents, activityKit.running);
      activityKit.log := activityKit.log + commands;
      activityKit.running := AfterTick(activityKit.running, tick);
    }

    /** `toggleCancel`: flips the cancelled mark of `id`, then exports. */
    method ToggleCancel(id: string, now: int)
      modifies this`cancelledEvents, widget
      ensures cancelledEvents == Toggled(old(cancelledEvents), id)
      ensures WidgetInSync(now)
    {
      if id in cancelledEvents {
        cancelledEvents := cancelledEvents - {id};
      } else {
        cancelledEvents := cancelledEvents + {id};
      }
      ExportWidgetData(now);
    }

    /**
     * `toggleExam`: flips the exam mark (marking also clears the important
     * mark), cancels the reminder the change makes stale, schedules the
     * five-day exam reminder when marking, then exports.
     */
    method ToggleExam(id: string, event: AppEvent, now: int)
      modifies this`markedExams, this`markedImportant, widget, center
      ensures Marks(markedExams, markedImportant) == ToggleExamMarks(Marks(old(markedExams), old(markedImportant)), id)
      ensures center.log == old(center.log) + ExamToggleCommands(id in old(markedExams), id, event, now)
      ensures WidgetInSync(now)
    {
      if id in markedExams {
        markedExams := markedExams - {id};
        center.log := center.log + [Cancel([ExamId(id)])];
      } else {
        markedExams := markedExams + {id};
        markedImportant := markedImportant - {id};
        center.log := center.log + [Cancel([ImportantId(id)])];
        ScheduleCustomNotif(ExamId(id), ExamTitle, ExamBody(event.title), event.startTime - ExamLead, now);
      }
      ExportWidgetData(now);
    }

    /**
     * `toggleImportant`: flips the important mark (marking also clears the
     * exam mark), cancels the reminder the change makes stale, schedules the
     * seven-day reminder when marking, then exports.
     */
    method ToggleImportant(id: string, event: AppEvent, now: int)
      modifies this`markedExams, this`markedImportant, widget, center
      ensures Marks(markedExams, markedImportant) == ToggleImportantMarks(Marks(old(markedExams), old(markedImportant)), id)
      ensures center.log == old(center.log) + ImportantToggleCommands(id in old(markedImportant), id, event, now)
      ensures WidgetInSync(now)
    {
      if id in markedImportant {
        markedImportant := markedImportant - {id};
        center.log := center.log + [Cancel([ImportantId(id)])];
      } else {
        markedImportant := markedImportant + {id};
        markedExams := markedExams - {id};
        center.log := center.log + [Cancel([ExamId(id)])];
        ScheduleCustomNotif(ImportantId(id), ImportantTitle, ImportantBody(event.title), event.startTime - ImportantLead, now);
      }
      ExportWidgetData(now);
    }

    /** `saveNote`: the empty note deletes the entry. */
    method SaveNote(id: string, note: string)
      modifies this`customNotes
      ensures customNotes == SetOrDelete(old(customNotes), id, note)
    {
      if note == "" {
        customNotes := customNotes - {id};
      } else {
        customNotes := customNotes[id := note];
      }
    }

    /** `saveRoom`: the empty room deletes the override; then exports. */
    method SaveRoom(id: string, room: string, now: int)
      modifies this`customRooms, widget
      ensures customRooms == SetOrDelete(old(customRooms), id, room)
      ensures WidgetInSync(now)
    {
      if room == "" {
        customRooms := customRooms - {id};
      } else {
        customRooms := customRooms[id := room];
      }
      ExportWidgetData(now);
    }

    /** `addGrade`: appends to the subject's grades. */
    method AddGrade(subject: string, entry: GradeEntry)
      modifies this`grades
      ensures grades == WithGrade(old(grades), subject, entry)
    {
      grades := grades[subject := GradesOf(grades, subject) + [entry]];
    }

    /** `deleteGrades`: removes the given positions, and drops the subject once its list is empty. */
    method DeleteGrades(subject: string, offsets: set<int>)
      requires OffsetsIn(offsets, GradesOf(grades, subject))
      modifies this`grades
      ensures grades == WithoutGrades(old(grades), subject, offsets)
    {
      if subject in grades {
        var rest := RemoveOffsets(grades[subject], offsets);
        if rest == [] {
          grades := grades - {subject};
        } else {
          grades := grades[subject := rest];
        }
      }
    }

    /**
     * `archiveSemester`: keeps the grades, absences and syllabuses under the
     * name, the date and the average, then empties eight tables (custom
     * times and absence limits stay) and exports.
     */
    method ArchiveSemester(name: string, currentAverage: string, now: int)
      modifies this`customNotes, this`customRooms, this`cancelledEvents, this`absencesDates, this`grades
      modifies this`archives, this`markedExams, this`markedImportant, this`syllabuses, widget
      ensures archives == old(archives) + [SemesterArchive(name, now, old(grades), old(absencesDates), old(syllabuses), currentAverage)]
      ensures grades == map[] && absencesDates == map[] && customNotes == map[] && customRooms == map[]
      ensures cancelledEvents == {} && markedExams == {} && markedImportant == {} && syllabuses == map[]
      ensures WidgetInSync(now)
    {
      StoreArchive(name, currentAverage, now);
      ExportWidgetData(now);
    }

    /** The table part of `archiveSemester`: the archive is appended and the eight tables emptied. */
    method StoreArchive(name: string, currentAverage: string, now: int)
      modifies this`customNotes, this`customRooms, this`cancelledEvents, this`absencesDates, this`grades
      modifies this`archives, this`markedExams, this`markedImportant, this`syllabuses
      ensures archives == old(archives) + [SemesterArchive(name, now, old(grades), old(absencesDates), old(syllabuses), currentAverage)]
      ensures grades == map[] && absencesDates == map[] && customNotes == map[] && customRooms == map[]
      ensures cancelledEvents == {} && markedExams == {} && markedImportant == {} && syllabuses == map[]
    {
      var archive := SemesterArchive(name, now, grades, absencesDates, syllabuses, currentAverage);
      archives := archives + [archive];
      grades, absencesDates, customNotes, customRooms := map[], map[], map[], map[];
      cancelledEvents, markedExams, markedImportant, syllabuses := {}, {}, {}, map[];
    }

    /** `deleteArchive`: removes the given positions. */
    method DeleteArchive(offsets: set<int>)
      requires OffsetsIn(offsets, archives)
      modifies this`archives
      ensures archives == RemoveOffsets(old(archives), offsets)
    {
      archives := RemoveOffsets(archives, offsets);
    }

    /** `saveSyllabus`: the empty text deletes the entry; an emptied subject is dropped. */
    method SaveSyllabus(subject: string, rawType: string, text: string)
      modifies this`syllabuses
      ensures syllabuses == WithSyllabus(old(syllabuses), subject, rawType, text)
    {
      syllabuses := WithSyllabus(syllabuses, subject, rawType, text);
    }

    /** `addAbsence`: records the absence, keeping the list newest first. */
    method AddAbsence(subject: string, rawType: string, date: int, note: string)
      modifies this`absencesDates
      ensures absencesDates == WithAbsence(old(absencesDates), subject, rawType, AbsenceRecord(date, note))
    {
      absencesDates := WithAbsence(absencesDates, subject, rawType, AbsenceRecord(date, note));
    }

    /** `removeAbsence`: drops the record at `index`, and the emptied list and subject with it. */
    method RemoveAbsence(subject: string, rawType: string, index: int)
      requires subject in absencesDates && rawType in absencesDates[subject] ==> 0 <= index < |absencesDates[subject][rawType]|
      modifies this`absencesDates
      ensures absencesDates == WithoutAbsence(old(absencesDates), subject, rawType, index)
    {
      absencesDates := WithoutAbsence(absencesDates, subject, rawType, index);
    }

    /** `updateAbsenceLimit`: a limit of zero or less deletes the entry. */
    method UpdateAbsenceLimit(subject: string, rawType: string, limit: int)
      modifies this`absenceLimits
      ensures absenceLimits == WithLimit(old(absenceLimits), subject, rawType, limit)
    {
      absenceLimits := WithLimit(absenceLimits, subject, rawType, limit);
    }

    /** `addUserEvent`: stores the event with the user's events, then reloads. */
    method AddUserEvent(event: AppEvent, now: int)
      modifies this`userEvents, this`allEvents, widget, center
      ensures userEvents == old(userEvents) + [event]
      ensures allEvents == SortByStart(feedEvents + userEvents)
      ensures WidgetInSync(now)
      ensures center.log == old(center.log) + ReminderCommands(Snapshot(), cancelledEvents, now) + BriefingCommands(Snapshot(), cancelledEvents, now)
    {
      userEvents := userEvents + [event];
      LoadData(now);
    }

    /** `deleteUserEvent`: drops every user event with the id, then reloads. */
    method DeleteUserEvent(id: string, now: int)
      modifies this`userEvents, this`allEvents, widget, center
      ensures userEvents == Where(old(userEvents), (x: AppEvent) => x.id != id)
      ensures allEvents == SortByStart(feedEvents + userEvents)
      ensures WidgetInSync(now)
      ensures center.log == old(center.log) + ReminderCommands(Snapshot(), cancelledEvents, now) + BriefingCommands(Snapshot(), cancelledEvents, now)
    {
      userEvents := Where(userEvents, (x: AppEvent) => x.id != id);
      LoadData(now);
    }

    /** `updateEventTime`: stores the override, then runs the live-activity pass. */
    method UpdateEventTime(id: string, newStart: int, newEnd: int, now: int)
      modifies this`customTimes, activityKit
      ensures customTimes == old(customTimes)[id := CustomTimeInfo(newStart, newEnd)]
      ensures var t := LiveTick(enableLiveActivities, now, MyDay(Snapshot(), now), cancelledEvents, old(activityKit.running));
        && activityKit.running == AfterTick(old(activityKit.running), t)
        && activityKit.log == old(activityKit.log) + TickCommands(t)
    {
      customTimes := customTimes[id := CustomTimeInfo(newStart, newEnd)];
      ManageLiveActivity(now);
    }

    /** `resetEventTime`: drops the override, then runs the live-activity pass. */
    method ResetEventTime(id: string, now: int)
      modifies this`customTimes, activityKit
      ensures customTimes == old(customTimes) - {id}
      ensures var t := LiveTick(enableLiveActivities, now, MyDay(Snapshot(), now), cancelledEvents, old(activityKit.running));
        && activityKit.running == AfterTick(old(activityKit.running), t)
        && activityKit.log == old(activityKit.log) + TickCommands(t)
    {
      customTimes := customTimes - {id};
      ManageLiveActivity(now);
    }
  }
}
