/**
 * The rules the screens hold themselves: which badge an event card shows,
 * what the card's context menu offers, how the "add event" form builds the
 * new event and what its save action does to the manager, and how the
 * "change time" sheet builds the override it stores.
 */
module Views {
  import opened Wrappers
  import opened Text
  import opened Calendar
  import opened Models
  import opened Resolver
  import opened Notifications
  import opened LiveActivity
  import opened Tables
  import opened Manager

  // ---------------------------------------------------------------------------
  // Event card
  // ---------------------------------------------------------------------------

  /** The corner mark of an event card: a text badge or the type's symbol. */
  datatype Badge = CancelledBadge | ExamBadge | ImportantBadge | NowBadge | TypeIcon(symbol: string) {
    function Label(): string {
      match this
      case CancelledBadge => "ODWO\U{0141}ANE"
      case ExamBadge => "\U{1F6A8} KOLOKWIUM"
      case ImportantBadge => "\U{2B50} WA\U{017B}NE"
      case NowBadge => "TERAZ"
      case TypeIcon(s) => s
    }
  }

  /** `isNow`: a cancelled class is never under way. */
  predicate CardIsNow(e: AppEvent, now: int, isCancelled: bool) {
    !isCancelled && IsHappeningNow(e, now)
  }

  /** `isExam`: marked as an exam, or a user event of the exam category. */
  predicate CardIsExam(e: AppEvent, markedExams: set<string>) {
    e.id in markedExams || e.category == Some(Exam)
  }

  predicate CardIsImportant(e: AppEvent, markedImportant: set<string>) {
    e.id in markedImportant
  }

  /** `iconName`: a star for user events, else the class type's symbol, else a calendar. */
  function IconName(e: AppEvent): string {
    if e.isUserCreated then "star.fill"
    else match e.classType
      case Some(t) => t.Icon()
      case None => "calendar"
  }

  /** The badge chain of the card's header. */
  function CardBadge(e: AppEvent, now: int, isCancelled: bool, markedExams: set<string>, markedImportant: set<string>): Badge {
    if isCancelled then CancelledBadge
    else if CardIsExam(e, markedExams) then ExamBadge
    else if CardIsImportant(e, markedImportant) then ImportantBadge
    else if CardIsNow(e, now, isCancelled) then NowBadge
    else TypeIcon(IconName(e))
  }

  /**
   * Each badge is shown exactly when its own condition holds and no earlier
   * one does: cancelled, then exam, then important, then under way, then
   * the type's symbol.
   */
  lemma BadgePrecedence(e: AppEvent, now: int, isCancelled: bool, exams: set<string>, important: set<string>)
    ensures var b := CardBadge(e, now, isCancelled, exams, important);
      && (b == CancelledBadge <==> isCancelled)
      && (b == ExamBadge <==> !isCancelled && (e.id in exams || e.category == Some(Exam)))
      && (b == ImportantBadge <==> !isCancelled && !CardIsExam(e, exams) && e.id in important)
      && (b == NowBadge <==>
            !isCancelled && !CardIsExam(e, exams) && !CardIsImportant(e, important) && e.startTime <= now <= e.endTime)
      && (b.TypeIcon? <==>
            !isCancelled && !CardIsExam(e, exams) && !CardIsImportant(e, important) && !IsHappeningNow(e, now))
  {
  }

  /** The symbol badge of a user event is always the star; a feed event's never is. */
  lemma IconOfUserEvents(e: AppEvent)
    ensures e.isUserCreated <==> IconName(e) == "star.fill"
  {
    if !e.isUserCreated && e.classType.Some? {
      assert e.classType.value.Icon() != "star.fill";
    }
  }

  /** A cancelled class is never treated as under way, whatever the time. */
  lemma CancelledNeverNow(e: AppEvent, now: int, exams: set<string>, important: set<string>)
    ensures !CardIsNow(e, now, true)
    ensures CardBadge(e, now, true, exams, important).Label() == "ODWO\U{0141}ANE"
  {
  }

  /** An item of the card's context menu. */
  datatype MenuItem = ToggleCancelItem(caption: string) | DeleteItem

  const CancelLabel: string := "Odwo\U{0142}aj zaj\U{0119}cia"
  const RestoreLabel: string := "Przywr\U{00F3}\U{0107} zaj\U{0119}cia"

  /** The card's context menu. */
  function ContextMenu(e: AppEvent, isCancelled: bool): seq<MenuItem> {
    (if !e.isUserCreated then [ToggleCancelItem(if isCancelled then RestoreLabel else CancelLabel)] else [])
    + (if e.isUserCreated then [DeleteItem] else [])
  }

  /**
   * The menu holds exactly one item: cancelling or restoring for a feed
   * event, labelled by the current state, and deleting for a user event.
   */
  lemma MenuGating(e: AppEvent, isCancelled: bool)
    ensures |ContextMenu(e, isCancelled)| == 1
    ensures DeleteItem in ContextMenu(e, isCancelled) <==> e.isUserCreated
    ensures ToggleCancelItem(RestoreLabel) in ContextMenu(e, isCancelled) <==> !e.isUserCreated && isCancelled
    ensures ToggleCancelItem(CancelLabel) in ContextMenu(e, isCancelled) <==> !e.isUserCreated && !isCancelled
  {
    assert RestoreLabel != CancelLabel by { assert RestoreLabel[0] != CancelLabel[0]; }
  }

  /**
   * Choosing a menu item: the toggle flips the cancelled mark of a feed
   * event, the delete removes a user event.
   */
  method ChooseMenuItem(m: DataManager, e: AppEvent, isCancelled: bool, item: MenuItem, now: int)
    requires item in ContextMenu(e, isCancelled)
    modifies m`cancelledEvents, m`userEvents, m`allEvents, m.widget, m.center
    ensures item.ToggleCancelItem? ==>
      && !e.isUserCreated
      && m.cancelledEvents == Toggled(old(m.cancelledEvents), e.id)
      && (m.userEvents, m.allEvents, m.center.log) == (old(m.userEvents), old(m.allEvents), old(m.center.log))
    ensures item.DeleteItem? ==>
      && e.isUserCreated
      && m.cancelledEvents == old(m.cancelledEvents)
      && m.userEvents == Where(old(m.userEvents), (x: AppEvent) => x.id != e.id)
      && m.allEvents == SortByStart(m.feedEvents + m.userEvents)
      && m.center.log == old(m.center.log)
           + ReminderCommands(m.Snapshot(), m.cancelledEvents, now) + BriefingCommands(m.Snapshot(), m.cancelledEvents, now)
    ensures m.WidgetInSync(now)
  {
    if item.ToggleCancelItem? {
      m.ToggleCancel(e.id, now);
    } else {
      m.DeleteUserEvent(e.id, now);
    }
  }

  // ---------------------------------------------------------------------------
  // Adding an event
  // ---------------------------------------------------------------------------

  /** What the "add event" form holds when the user saves. */
  datatype AddEventForm = AddEventForm(
    title: string, lecturer: string, room: string, category: EventCategory, customCategoryName: string,
    date: int, startTime: int, specialTag: int, reminderMinutes: int)

  /** Every user event lasts an hour and a half. */
  const UserEventLength: int := 5400

  /**
   * `combineDateAndTime`: the day `d` at the hour and minute the picker `t`
   * shows, second zero.
   */
  function CombineDateAndTime(d: int, t: int): int {
    SetHourMinute(d, HourOf(t), MinuteOf(t))
  }

  /** The combined instant lies on `d`'s day and reads the picker's clock, to the minute. */
  lemma CombineKeepsDayAndClock(d: int, t: int)
    ensures var r := CombineDateAndTime(d, t);
      SameDay(r, d) && HourOf(r) == HourOf(t) && MinuteOf(r) == MinuteOf(t) && r % SecondsPerMinute == 0
  {
    SetHourMinuteReads(d, HourOf(t), MinuteOf(t));
  }

  /** The event the form's save action builds, with the fresh id `id`. */
  function NewUserEvent(f: AddEventForm, id: string): AppEvent {
    var start := CombineDateAndTime(f.date, f.startTime);
    AppEvent(
      id,
      if f.title == "" then "Wydarzenie" else f.title,
      if f.lecturer == "" then "W\U{0142}asne" else f.lecturer,
      if f.room == "" then "-" else f.room,
      f.date, start, start + UserEventLength,
      Some(f.category), None, None, true,
      if f.category == Other && f.customCategoryName != "" then Some(f.customCategoryName) else None)
  }

  /**
   * The new event keeps every field the user filled in and takes the
   * defaults for the empty ones; it is a user event of the chosen category
   * with no class type and no group, lasting 5400 seconds from the chosen
   * day at the picked clock time; only the "other" category keeps a custom
   * name, and only a non-empty one.
   */
  lemma NewUserEventDefaults(f: AddEventForm, id: string)
    ensures var e := NewUserEvent(f, id);
      && e.id == id && e.date == f.date
      && (f.title != "" ==> e.title == f.title) && (f.title == "" ==> e.title == "Wydarzenie")
      && (f.lecturer != "" ==> e.lecturer == f.lecturer) && (f.lecturer == "" ==> e.lecturer == "W\U{0142}asne")
      && (f.room != "" ==> e.room == f.room) && (f.room == "" ==> e.room == "-")
      && e.isUserCreated && e.classType == None && e.group == None && e.category == Some(f.category)
      && e.endTime - e.startTime == 5400
      && SameDay(e.startTime, f.date) && HourOf(e.startTime) == HourOf(f.startTime)
      && MinuteOf(e.startTime) == MinuteOf(f.startTime)
      && (e.customCategory.Some? <==> f.category == Other && f.customCategoryName != "")
      && (e.customCategory.Some? ==> e.customCategory.value == f.customCategoryName)
  {
    CombineKeepsDayAndClock(f.date, f.startTime);
  }

  /**
   * The lead time's wording in the reminder body: one day for 1440 minutes,
   * one week for any longer lead, else the minutes.
   */
  function ReminderText(minutes: nat): string {
    if minutes >= 1440 then (if minutes == 1440 then "1 dzie\U{0144}" else "1 tydzie\U{0144}")
    else NatString(minutes) + " min"
  }

  /** Reads a lead-time wording back as the picker value it names. */
  function ParseReminderText(s: string): Option<nat> {
    if s == "1 dzie\U{0144}" then Some(1440)
    else if s == "1 tydzie\U{0144}" then Some(10080)
    else
      var k := LeadingDigits(s);
      if k > 0 && s[k..] == " min" then Some(DigitsValue(s[..k])) else None
  }

  /**
   * The wording names the lead exactly for every lead up to a day and for
   * the week the picker offers; every longer lead reads as a week.
   */
  lemma ReminderTextReadsBack(minutes: nat)
    ensures minutes <= 1440 || minutes == 10080 ==> ParseReminderText(ReminderText(minutes)) == Some(minutes)
    ensures minutes > 1440 ==> ParseReminderText(ReminderText(minutes)) == Some(10080)
  {
    if minutes < 1440 {
      var s := ReminderText(minutes);
      ReadBack(minutes, " min");
      assert s[|s| - 1] == 'n';
    }
  }

  function ReminderTitle(title: string): string { "Przypomnienie: " + title }
  function ReminderBody(minutes: nat): string { "Zaczyna si\U{0119} za " + ReminderText(minutes) }

  /** The marks after the special tag is applied to the new event's id: 1 toggles important, 2 toggles exam. */
  function TagMarks(marks: Marks, tag: int, id: string): Marks {
    if tag == 1 then ToggleImportantMarks(marks, id)
    else if tag == 2 then ToggleExamMarks(marks, id)
    else marks
  }

  /** The notification commands the special tag causes. */
  function TagCommands(marks: Marks, tag: int, e: AppEvent, now: int): seq<Command> {
    if tag == 1 then ImportantToggleCommands(e.id in marks.important, e.id, e, now)
    else if tag == 2 then ExamToggleCommands(e.id in marks.exams, e.id, e, now)
    else []
  }

  /** The custom reminder: only with a positive lead and no special tag. */
  function ReminderCommandsFor(f: AddEventForm, e: AppEvent, now: int): seq<Command> {
    if f.reminderMinutes > 0 && f.specialTag == 0 then
      CustomNotif(RemindId(e.id), ReminderTitle(e.title), ReminderBody(f.reminderMinutes),
                  e.startTime - f.reminderMinutes * 60, now)
    else []
  }

  /**
   * A fresh id tagged 1 ends up important only, tagged 2 an exam only, and
   * untagged with no mark; the card of the new event then shows the
   * matching badge while it is not cancelled.
   */
  lemma TagMarksFreshId(marks: Marks, tag: int, e: AppEvent, now: int)
    requires e.id !in marks.exams && e.id !in marks.important
    requires e.category != Some(Exam)
    ensures var r := TagMarks(marks, tag, e.id);
      && (e.id in r.important <==> tag == 1)
      && (e.id in r.exams <==> tag == 2)
      && (tag == 1 ==> CardBadge(e, now, false, r.exams, r.important) == ImportantBadge)
      && (tag == 2 ==> CardBadge(e, now, false, r.exams, r.important) == ExamBadge)
  {
  }

  /**
   * The reminder `remind_<id>` is requested exactly when the lead is
   * positive, there is no special tag and the reminder instant is still
   * ahead; it then fires at the minute of the start less the lead.
   */
  lemma ReminderGating(f: AddEventForm, e: AppEvent, now: int)
    ensures var cmds := ReminderCommandsFor(f, e, now);
      && |cmds| <= 1
      && (cmds != [] <==> f.reminderMinutes > 0 && f.specialTag == 0 && e.startTime - f.reminderMinutes * 60 > now)
      && (cmds != [] ==>
            && cmds[0].Add? && cmds[0].request.id == "remind_" + e.id
            && cmds[0].request.fireAt == TriggerMinute(e.startTime - f.reminderMinutes * 60))
  {
  }

  /**
   * The form's save action: adds the new event (which reloads), applies the
   * special tag, and requests the custom reminder. The save button is
   * disabled while the title is empty.
   */
  method AddEventSave(m: DataManager, f: AddEventForm, id: string, now: int)
    requires f.title != ""
    modifies m`userEvents, m`allEvents, m`markedExams, m`markedImportant, m.widget, m.center
    ensures var e := NewUserEvent(f, id);
      (m.userEvents, m.allEvents, Marks(m.markedExams, m.markedImportant), m.center.log)
      == (old(m.userEvents) + [e],
          SortByStart(m.feedEvents + m.userEvents),
          TagMarks(Marks(old(m.markedExams), old(m.markedImportant)), f.specialTag, id),
          old(m.center.log)
           + ReminderCommands(m.Snapshot(), m.cancelledEvents, now) + BriefingCommands(m.Snapshot(), m.cancelledEvents, now)
           + TagCommands(Marks(old(m.markedExams), old(m.markedImportant)), f.specialTag, e, now)
           + ReminderCommandsFor(f, e, now))
    ensures m.WidgetInSync(now)
  {
    var e := NewUserEvent(f, id);
    m.AddUserEvent(e, now);
    TagAndRemind(m, f, e, now);
  }

  /** The save action after the event is stored: the special tag, then the custom reminder. */
  method TagAndRemind(m: DataManager, f: AddEventForm, e: AppEvent, now: int)
    requires m.WidgetInSync(now)
    modifies m`markedExams, m`markedImportant, m.widget, m.center
    ensures Marks(m.markedExams, m.markedImportant) == TagMarks(Marks(old(m.markedExams), old(m.markedImportant)), f.specialTag, e.id)
    ensures m.center.log == old(m.center.log)
      + TagCommands(Marks(old(m.markedExams), old(m.markedImportant)), f.specialTag, e, now) + ReminderCommandsFor(f, e, now)
    ensures m.WidgetInSync(now)
  {
    ApplyTag(m, f.specialTag, e, now);
    if f.reminderMinutes > 0 && f.specialTag == 0 {
      m.ScheduleCustomNotif(RemindId(e.id), ReminderTitle(e.title), ReminderBody(f.reminderMinutes),
                            e.startTime - f.reminderMinutes * 60, now);
    }
  }

  /** Applies the special tag to the new event through the manager's toggles. */
  method ApplyTag(m: DataManager, tag: int, e: AppEvent, now: int)
    requires m.WidgetInSync(now)
    modifies m`markedExams, m`markedImportant, m.widget, m.center
    ensures Marks(m.markedExams, m.markedImportant) == TagMarks(Marks(old(m.markedExams), old(m.markedImportant)), tag, e.id)
    ensures m.center.log == old(m.center.log) + TagCommands(Marks(old(m.markedExams), old(m.markedImportant)), tag, e, now)
    ensures m.WidgetInSync(now)
  {
    if tag == 1 {
      m.ToggleImportant(e.id, e, now);
    } else if tag == 2 {
      m.ToggleExam(e.id, e, now);
    }
  }

  // ---------------------------------------------------------------------------
  // Changing an event's time
  // ---------------------------------------------------------------------------

  /** The override the "change time" sheet stores: both picked clock times on the event's own day. */
  function EditTimeOverride(eventDate: int, newStart: int, newEnd: int): CustomTimeInfo {
    CustomTimeInfo(CombineDateAndTime(eventDate, newStart), CombineDateAndTime(eventDate, newEnd))
  }

  /**
   * Both ends lie on the event's day at the picked clock times, and nothing
   * checks their order: the override ends before it starts exactly when the
   * end picker shows an earlier time of day than the start picker.
   */
  lemma EditTimeOverrideSpec(eventDate: int, newStart: int, newEnd: int)
    ensures var o := EditTimeOverride(eventDate, newStart, newEnd);
      && SameDay(o.startTime, eventDate) && SameDay(o.endTime, eventDate)
      && HourOf(o.startTime) == HourOf(newStart) && MinuteOf(o.startTime) == MinuteOf(newStart)
      && HourOf(o.endTime) == HourOf(newEnd) && MinuteOf(o.endTime) == MinuteOf(newEnd)
      && (o.endTime < o.startTime <==>
            HourOf(newEnd) * 60 + MinuteOf(newEnd) < HourOf(newStart) * 60 + MinuteOf(newStart))
  {
    CombineKeepsDayAndClock(eventDate, newStart);
    CombineKeepsDayAndClock(eventDate, newEnd);
    var o := EditTimeOverride(eventDate, newStart, newEnd);
    var a := HourOf(newStart) * 60 + MinuteOf(newStart);
    var b := HourOf(newEnd) * 60 + MinuteOf(newEnd);
    assert o.startTime == StartOfDay(eventDate) + a * 60;
    assert o.endTime == StartOfDay(eventDate) + b * 60;
  }

  /** The sheet's save action: stores the override, then runs the live-activity pass. */
  method EditTimeSave(m: DataManager, event: AppEvent, newStart: int, newEnd: int, now: int)
    modifies m`customTimes, m.activityKit
    ensures m.customTimes == old(m.customTimes)[event.id := EditTimeOverride(event.date, newStart, newEnd)]
    ensures var t := LiveTick(m.enableLiveActivities, now, MyDay(m.Snapshot(), now), m.cancelledEvents, old(m.activityKit.running));
      && m.activityKit.running == AfterTick(old(m.activityKit.running), t)
      && m.activityKit.log == old(m.activityKit.log) + TickCommands(t)
  {
    var o := EditTimeOverride(event.date, newStart, newEnd);
    m.UpdateEventTime(event.id, o.startTime, o.endTime, now);
  }
}
